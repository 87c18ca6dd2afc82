/** Exactly-once accounting: every identified request is charged once, however often and in whatever
    order it is delivered, exactly as long as pruning does not forget one that comes again. */
module Billing {
  import opened Base
  import Text
  import opened Timestamp
  import opened Ledger
  import opened Quota
  import opened LedgerRuns

  /** What a delivery asks to be charged. */
  datatype Bill = Bill(requestID: string, cell: Cell, charge: Totals)

  function BillOf(row: EventRow): Bill { Bill(row.requestID, CellOf(row), Charge(row)) }

  datatype Request = Request(id: string, keyHash: string)

  function RequestOf(b: Bill): Request { Request(b.requestID, b.cell.keyHash) }

  function Known(events: seq<EventRow>): set<Request> {
    set row | row in events :: Request(row.requestID, row.keyHash)
  }

  /** Deliveries of one identified request carry the same counters and resolve to the same period. */
  ghost predicate Consistent(bills: seq<Bill>) {
    forall i, j :: 0 <= i < |bills| && 0 <= j < |bills| && bills[i].requestID != ""
      && RequestOf(bills[i]) == RequestOf(bills[j])
      ==> bills[i] == bills[j]
  }

  /** The first delivery of each identified request not known before, and every anonymous one. */
  function Kept(known: set<Request>, bills: seq<Bill>): seq<Bill> {
    if bills == [] then []
    else
      var init, last := bills[..|bills| - 1], bills[|bills| - 1];
      Kept(known, init) + (if Repeats(known, init, last) then [] else [last])
  }

  function BillSum(bills: seq<Bill>, cell: Cell): Totals {
    if bills == [] then ZERO
    else
      var b := bills[|bills| - 1];
      Plus(BillSum(bills[..|bills| - 1], cell), BillShare(b, cell))
  }

  function BillShare(b: Bill, cell: Cell): Totals { if b.cell == cell then b.charge else ZERO }

  /** Each identified request of a delivery sequence that is new, once. */
  ghost function NewRequests(known: set<Request>, bills: seq<Bill>): set<Bill> {
    set b | b in bills && b.requestID != "" && RequestOf(b) !in known
  }

  function Anonymous(bills: seq<Bill>): seq<Bill> {
    if bills == [] then []
    else Anonymous(bills[..|bills| - 1]) + (if bills[|bills| - 1].requestID == "" then [bills[|bills| - 1]] else [])
  }

  lemma {:induction false} MultisetSnoc<T>(s: seq<T>, x: T)
    ensures multiset(s + [x]) == multiset(s) + multiset{x}
  {
  }

  /** Whether the last of some deliveries is dropped as a repetition. */
  predicate Repeats(known: set<Request>, init: seq<Bill>, last: Bill) {
    last.requestID != "" && (RequestOf(last) in known || exists b :: b in init && RequestOf(b) == RequestOf(last))
  }

  lemma {:induction false} NewRequestsSnoc(known: set<Request>, init: seq<Bill>, last: Bill)
    requires Consistent(init + [last])
    ensures var before, after := NewRequests(known, init), NewRequests(known, init + [last]);
            if last.requestID != "" && !Repeats(known, init, last)
            then last !in before && after == before + {last}
            else after == before
  {
    var bills := init + [last];
    forall b | b in init && b.requestID != "" && RequestOf(b) == RequestOf(last)
      ensures b == last
    {
      var i :| 0 <= i < |init| && init[i] == b;
      assert bills[i] == b && bills[|init|] == last;
    }
    assert forall b :: b in bills <==> b in init || b == last;
  }

  lemma {:induction false} KeptIsOnce(known: set<Request>, bills: seq<Bill>)
    requires Consistent(bills)
    ensures multiset(Kept(known, bills)) == multiset(NewRequests(known, bills)) + multiset(Anonymous(bills))
  {
    hide NewRequests, Repeats, Consistent, RequestOf;
    if bills == [] {
      NoneNew(known);
    } else {
      var init, last := bills[..|bills| - 1], bills[|bills| - 1];
      assert bills == init + [last];
      ConsistentPrefix(init, last);
      KeptIsOnce(known, init);
      KeptIsOnceStep(known, init, last);
    }
  }

  lemma {:induction false} KeptIsOnceStep(known: set<Request>, init: seq<Bill>, last: Bill)
    requires Consistent(init + [last])
    requires multiset(Kept(known, init)) == multiset(NewRequests(known, init)) + multiset(Anonymous(init))
    ensures var bills := init + [last];
            multiset(Kept(known, bills)) == multiset(NewRequests(known, bills)) + multiset(Anonymous(bills))
  {
    hide NewRequests, Repeats, Consistent, RequestOf, Kept, Anonymous;
    NewRequestsSnoc(known, init, last);
    AnonymousNeverRepeats(known, init, last);
    KeptAndAnonymousSnoc(known, init, last);
    MultisetSnoc(Kept(known, init), last);
    MultisetSnoc(Anonymous(init), last);
    SetSnoc(NewRequests(known, init), last);
  }

  lemma {:induction false} SetSnoc<T>(s: set<T>, x: T)
    ensures x !in s ==> multiset(s + {x}) == multiset(s) + multiset{x}
  {
  }

  lemma {:induction false} KeptAndAnonymousSnoc(known: set<Request>, init: seq<Bill>, last: Bill)
    ensures Kept(known, init + [last]) ==
              if Repeats(known, init, last) then Kept(known, init) else Kept(known, init) + [last]
    ensures Anonymous(init + [last]) == if last.requestID == "" then Anonymous(init) + [last] else Anonymous(init)
  {
    hide Repeats;
    assert (init + [last])[..|init|] == init;
  }

  lemma {:induction false} ConsistentPrefix(init: seq<Bill>, last: Bill)
    requires Consistent(init + [last])
    ensures Consistent(init)
  {
    hide RequestOf;
    assert forall i :: 0 <= i < |init| ==> init[i] == (init + [last])[i];
  }

  lemma {:induction false} NoneNew(known: set<Request>)
    ensures NewRequests(known, []) == {}
  {
  }

  /** The requests of the identified ones among some deliveries. */
  function Requests(bills: seq<Bill>): seq<Request> {
    if bills == [] then []
    else
      var last := bills[|bills| - 1];
      Requests(bills[..|bills| - 1]) + (if last.requestID == "" then [] else [RequestOf(last)])
  }

  ghost function Identities(known: set<Request>, bills: seq<Bill>): set<Request> {
    set b | b in bills && b.requestID != "" && RequestOf(b) !in known :: RequestOf(b)
  }

  /** The bill is the first one for its request. */
  ghost predicate IsFirst(bills: seq<Bill>, b: Bill) {
    exists i :: 0 <= i < |bills| && bills[i] == b && forall j :: 0 <= j < i ==> RequestOf(bills[j]) != RequestOf(b)
  }

  lemma {:induction false} FirstStays(bills: seq<Bill>, last: Bill, b: Bill)
    requires IsFirst(bills, b)
    ensures IsFirst(bills + [last], b)
  {
    hide RequestOf;
    var i :| 0 <= i < |bills| && bills[i] == b && forall j :: 0 <= j < i ==> RequestOf(bills[j]) != RequestOf(b);
    assert (bills + [last])[i] == b && forall j :: 0 <= j < i ==> (bills + [last])[j] == bills[j];
  }

  lemma {:induction false} FirstIsNew(known: set<Request>, bills: seq<Bill>, last: Bill)
    requires last.requestID != "" && !Repeats(known, bills, last)
    ensures IsFirst(bills + [last], last)
  {
    hide RequestOf;
    var all := bills + [last];
    assert all[|bills|] == last;
    assert forall j :: 0 <= j < |bills| ==> all[j] == bills[j] && bills[j] in bills;
  }

  lemma {:induction false} KeptIdentities(known: set<Request>, bills: seq<Bill>)
    ensures multiset(Requests(Kept(known, bills))) == multiset(Identities(known, bills))
  {
    hide RequestOf, Repeats, Identities;
    if bills == [] {
      NoIdentities(known);
    } else {
      var init, last := bills[..|bills| - 1], bills[|bills| - 1];
      var kept := Kept(known, init);
      assert bills == init + [last];
      KeptIdentities(known, init);
      IdentitiesSnoc(known, init, last);
      KeptAndAnonymousSnoc(known, init, last);
      MultisetSnoc(Requests(kept), RequestOf(last));
      SetSnoc(Identities(known, init), RequestOf(last));
      AnonymousNeverRepeats(known, init, last);
      assert (kept + [last])[..|kept|] == kept && Requests(kept) + [] == Requests(kept);
    }
  }

  lemma {:induction false} KeptAnonymous(known: set<Request>, bills: seq<Bill>)
    ensures Anonymous(Kept(known, bills)) == Anonymous(bills)
  {
    hide Repeats;
    if bills != [] {
      var init, last := bills[..|bills| - 1], bills[|bills| - 1];
      var kept := Kept(known, init);
      KeptAnonymous(known, init);
      AnonymousNeverRepeats(known, init, last);
      assert (kept + [last])[..|kept|] == kept && kept + [] == kept;
    }
  }

  /** Even where deliveries of one request differ, the first decides: each new identified request is
      kept once, by its first delivery, and every anonymous delivery is kept. */
  lemma {:induction false} KeptOnce(known: set<Request>, bills: seq<Bill>)
    ensures multiset(Requests(Kept(known, bills))) == multiset(Identities(known, bills))
    ensures Anonymous(Kept(known, bills)) == Anonymous(bills)
    ensures forall b :: b in Kept(known, bills) ==> b in bills && (b.requestID != "" ==> IsFirst(bills, b))
  {
    KeptIdentities(known, bills);
    KeptAnonymous(known, bills);
    KeptFirst(known, bills);
  }

  lemma {:induction false} KeptFirst(known: set<Request>, bills: seq<Bill>)
    ensures forall b :: b in Kept(known, bills) ==> b in bills && (b.requestID != "" ==> IsFirst(bills, b))
  {
    hide RequestOf, Repeats, IsFirst;
    if bills != [] {
      var init, last := bills[..|bills| - 1], bills[|bills| - 1];
      assert bills == init + [last];
      KeptFirst(known, init);
      forall b | b in Kept(known, init) && b.requestID != ""
        ensures IsFirst(bills, b)
      {
        FirstStays(init, last, b);
      }
      if last.requestID != "" && !Repeats(known, init, last) { FirstIsNew(known, init, last); }
    }
  }

  lemma {:induction false} AnonymousNeverRepeats(known: set<Request>, init: seq<Bill>, last: Bill)
    ensures last.requestID == "" ==> !Repeats(known, init, last)
  {
  }

  lemma {:induction false} NoIdentities(known: set<Request>)
    ensures Identities(known, []) == {}
  {
  }

  lemma {:induction false} IdentitiesSnoc(known: set<Request>, init: seq<Bill>, last: Bill)
    ensures var before, after := Identities(known, init), Identities(known, init + [last]);
            if last.requestID != "" && !Repeats(known, init, last)
            then RequestOf(last) !in before && after == before + {RequestOf(last)}
            else after == before
  {
    assert forall b :: b in init + [last] <==> b in init || b == last;
  }

  lemma {:induction false} BillSumRemove(bills: seq<Bill>, i: nat, cell: Cell)
    requires i < |bills|
    ensures BillSum(bills, cell) ==
              Plus(BillSum(bills[..i] + bills[i + 1..], cell), BillShare(bills[i], cell))
  {
    hide Plus, BillShare;
    var rest := bills[..i] + bills[i + 1..];
    var init := bills[..|bills| - 1];
    if i == |bills| - 1 {
      assert rest == init;
    } else {
      BillSumRemove(init, i, cell);
      assert rest[..|rest| - 1] == init[..i] + init[i + 1..];
      assert rest[|rest| - 1] == bills[|bills| - 1];
      PlusLaws(BillSum(init[..i] + init[i + 1..], cell), BillShare(bills[i], cell),
               BillShare(bills[|bills| - 1], cell));
    }
  }

  lemma {:induction false} MultisetRemove<T>(s: seq<T>, i: nat)
    requires i < |s|
    ensures multiset(s[..i] + s[i + 1..]) == multiset(s) - multiset{s[i]}
  {
    assert s == s[..i] + [s[i]] + s[i + 1..];
  }

  /** The sum does not depend on the order. */
  lemma {:induction false} BillSumPermutes(a: seq<Bill>, b: seq<Bill>, cell: Cell)
    requires multiset(a) == multiset(b)
    ensures BillSum(a, cell) == BillSum(b, cell)
  {
    hide Plus, BillShare;
    if a == [] {
      assert |multiset(b)| == |b| == 0;
    } else {
      var n := |a| - 1;
      assert a[n] in multiset(b);
      var i :| 0 <= i < |b| && b[i] == a[n];
      var rest := b[..i] + b[i + 1..];
      MultisetRemove(a, n);
      MultisetRemove(b, i);
      assert a[..n] + a[n + 1..] == a[..n];
      BillSumPermutes(a[..n], rest, cell);
      BillSumRemove(b, i, cell);
    }
  }

  /** The deliveries of a run, with the periods they resolved to. */
  function Bills(cfg: Config, sys: Sys, run: seq<Call>): seq<Bill>
    decreases |run|
  {
    if run == [] then []
    else
      (if run[0].op.RecordUsage? then [BillOf(DeliveredRow(cfg, sys, run[0]))] else [])
      + Bills(cfg, Do(cfg, sys, run[0]), run[1..])
  }

  /** The request has been seen: it had a row at the start or was delivered since. */
  ghost predicate SeenRequest(known: set<Request>, bills: seq<Bill>, r: Request) {
    r in known || exists b :: b in bills && RequestOf(b) == r
  }

  /** A delivery that is charged although its request has been seen, because its row is gone. */
  function AgainWith(known: set<Request>, bills: seq<Bill>, events: seq<EventRow>, row: EventRow): seq<Bill> {
    if !Duplicate(events, row) && Repeats(known, bills, BillOf(row)) then [BillOf(row)] else []
  }

  function StepRecharged(cfg: Config, known: set<Request>, bills: seq<Bill>, sys: Sys, t: Call): seq<Bill> {
    if t.op.RecordUsage? then AgainWith(known, bills, sys.led.events, DeliveredRow(cfg, sys, t)) else []
  }

  /** The bills counted after a step. */
  function BillsAfter(cfg: Config, bills: seq<Bill>, sys: Sys, t: Call): seq<Bill> {
    if t.op.RecordUsage? then bills + [BillOf(DeliveredRow(cfg, sys, t))] else bills
  }

  /** All such deliveries of a run. */
  function Recharged(cfg: Config, known: set<Request>, bills: seq<Bill>, sys: Sys, run: seq<Call>): seq<Bill>
    decreases |run|
  {
    if run == [] then []
    else
      StepRecharged(cfg, known, bills, sys, run[0])
      + Recharged(cfg, known, BillsAfter(cfg, bills, sys, run[0]), Do(cfg, sys, run[0]), run[1..])
  }

  /** Where a ledger stands after some deliveries, some of them charged again, on top of an initial one. */
  ghost predicate Charged(led0: Books, bills: seq<Bill>, again: seq<Bill>, led: Books) {
    var known := Known(led0.events);
    && (forall r: Request :: r.id != "" && r in Known(led.events) ==> SeenRequest(known, bills, r))
    && (forall cell: Cell :: PeriodTotals(led, cell.keyHash, cell.period) ==
         Plus(PeriodTotals(led0, cell.keyHash, cell.period),
              Plus(BillSum(Kept(known, bills), cell), BillSum(again, cell))))
  }

  lemma {:induction false} DuplicateIsKnown(events: seq<EventRow>, row: EventRow)
    ensures Duplicate(events, row) <==> row.requestID != "" && Request(row.requestID, row.keyHash) in Known(events)
  {
    if Recorded(events, row.requestID, row.keyHash) {
      var i :| 0 <= i < |events| && events[i].requestID == row.requestID && events[i].keyHash == row.keyHash;
      assert events[i] in events;
    }
  }

  lemma {:induction false} PostTotals(led: Books, row: EventRow, cell: Cell)
    ensures PeriodTotals(Post(led, row), cell.keyHash, cell.period) ==
              Plus(PeriodTotals(led, cell.keyHash, cell.period),
                   if Duplicate(led.events, row) then ZERO else BillShare(BillOf(row), cell))
  {
    hide Charge, Duplicate, Plus;
    PlusLaws(PeriodTotals(led, cell.keyHash, cell.period), ZERO, ZERO);
    PlusLaws(Charge(row), ZERO, ZERO);
    assert cell == Cell(cell.keyHash, cell.period);
  }

  lemma {:induction false} PostKnown(led: Books, row: EventRow)
    ensures Known(Post(led, row).events) ==
              Known(led.events) + (if Duplicate(led.events, row) then {} else {Request(row.requestID, row.keyHash)})
  {
    hide Duplicate, Charge;
    assert forall r :: r in led.events + [row] <==> r in led.events || r == row;
  }

  lemma {:induction false} DeliveryCharged(led0: Books, bills: seq<Bill>, again: seq<Bill>, led: Books, row: EventRow)
    requires Charged(led0, bills, again, led)
    ensures Charged(led0, bills + [BillOf(row)], again + AgainWith(Known(led0.events), bills, led.events, row),
                    Post(led, row))
  {
    hide Post, Duplicate, Known, Plus, Charge, BillShare, PeriodTotals, BillSum, Kept;
    var known, bill := Known(led0.events), BillOf(row);
    DuplicateIsKnown(led.events, row);
    assert Duplicate(led.events, row) ==> Repeats(known, bills, bill);
    PostKnown(led, row);
    assert forall b :: b in bills + [bill] <==> b in bills || b == bill;
    forall cell: Cell { DeliveryTotals(led0, bills, again, led, row, cell); }
  }

  lemma {:induction false} DeliveryTotals(
    led0: Books, bills: seq<Bill>, again: seq<Bill>, led: Books, row: EventRow, cell: Cell)
    requires PeriodTotals(led, cell.keyHash, cell.period) ==
               Plus(PeriodTotals(led0, cell.keyHash, cell.period),
                    Plus(BillSum(Kept(Known(led0.events), bills), cell), BillSum(again, cell)))
    requires Duplicate(led.events, row) ==> Repeats(Known(led0.events), bills, BillOf(row))
    ensures PeriodTotals(Post(led, row), cell.keyHash, cell.period) ==
              Plus(PeriodTotals(led0, cell.keyHash, cell.period),
                   Plus(BillSum(Kept(Known(led0.events), bills + [BillOf(row)]), cell),
                        BillSum(again + AgainWith(Known(led0.events), bills, led.events, row), cell)))
  {
    hide Post, Duplicate, Known, Plus, Charge, BillShare, PeriodTotals, BillSum, Kept, Repeats;
    var known, bill := Known(led0.events), BillOf(row);
    PostTotals(led, row, cell);
    var base := PeriodTotals(led0, cell.keyHash, cell.period);
    var kept, more, share := BillSum(Kept(known, bills), cell), BillSum(again, cell), BillShare(bill, cell);
    KeptSnoc(known, bills, bill, cell);
    BillSumSnoc(again, bill, cell);
    assert again + [] == again;
    PlusLaws(base, Plus(kept, more), share);
    PlusLaws(kept, more, share);
    PlusLaws(Plus(base, Plus(kept, more)), ZERO, ZERO);
  }

  lemma {:induction false} BillSumSnoc(bills: seq<Bill>, bill: Bill, cell: Cell)
    ensures BillSum(bills + [bill], cell) == Plus(BillSum(bills, cell), BillShare(bill, cell))
  {
    hide Plus, BillShare;
    assert (bills + [bill])[..|bills|] == bills;
  }

  lemma {:induction false} KeptSnoc(known: set<Request>, bills: seq<Bill>, bill: Bill, cell: Cell)
    ensures BillSum(Kept(known, bills + [bill]), cell) ==
              if Repeats(known, bills, bill) then BillSum(Kept(known, bills), cell)
              else Plus(BillSum(Kept(known, bills), cell), BillShare(bill, cell))
  {
    hide Plus, BillShare, Repeats, Kept;
    KeptAndAnonymousSnoc(known, bills, bill);
    BillSumSnoc(Kept(known, bills), bill, cell);
  }

  lemma {:induction false} BillsSplit(cfg: Config, bills: seq<Bill>, sys: Sys, run: seq<Call>)
    requires run != []
    ensures bills + Bills(cfg, sys, run) ==
              BillsAfter(cfg, bills, sys, run[0]) + Bills(cfg, Do(cfg, sys, run[0]), run[1..])
  {
    hide BillOf, DeliveredRow, Do;
  }

  lemma {:induction false} StepCharged(cfg: Config, led0: Books, bills: seq<Bill>, again: seq<Bill>, sys: Sys, t: Call)
    requires Charged(led0, bills, again, sys.led) && !t.op.ResetUsage?
    ensures Charged(led0, BillsAfter(cfg, bills, sys, t), again + StepRecharged(cfg, Known(led0.events), bills, sys, t),
                    Do(cfg, sys, t).led)
  {
    hide Post, Duplicate, Known, Plus, BillOf, BillSum, PeriodAt, Move, Kept, RowOf, PruneRows, SeenRequest, Repeats;
    var led := Do(cfg, sys, t).led;
    if t.op.RecordUsage? {
      DeliveryCharged(led0, bills, again, sys.led, DeliveredRow(cfg, sys, t));
    } else {
      assert again + [] == again;
      assert led.usage == sys.led.usage;
      if t.op.Prune? { PruneForgets(sys.led.events, Ts(t.op.before)); } else { assert led.events == sys.led.events; }
    }
  }

  lemma {:induction false} PruneForgets(events: seq<EventRow>, before: string)
    ensures Known(PruneRows(events, before)) <= Known(events)
  {
  }

  lemma {:induction false} RunCharged(
    cfg: Config, led0: Books, bills: seq<Bill>, again: seq<Bill>, sys: Sys, run: seq<Call>)
    requires Charged(led0, bills, again, sys.led) && NothingReset(run)
    ensures Charged(led0, bills + Bills(cfg, sys, run), again + Recharged(cfg, Known(led0.events), bills, sys, run),
                    RunCalls(cfg, sys, run).led)
    decreases |run|
  {
    hide Charged, Do, StepRecharged, BillsAfter, Known, NothingReset;
    if run == [] {
      assert bills + [] == bills && again + [] == again;
    } else {
      var t, next, known := run[0], Do(cfg, sys, run[0]), Known(led0.events);
      var more, after := StepRecharged(cfg, known, bills, sys, t), BillsAfter(cfg, bills, sys, t);
      NothingResetAfter(run);
      StepCharged(cfg, led0, bills, again, sys, t);
      RunCharged(cfg, led0, after, again + more, next, run[1..]);
      BillsSplit(cfg, bills, sys, run);
      var rest := Recharged(cfg, known, after, next, run[1..]);
      assert again + (more + rest) == (again + more) + rest;
    }
  }

  lemma {:induction false} NothingChargedYet(led: Books)
    ensures Charged(led, [], [], led)
  {
    hide Known, PeriodTotals, Plus;
    var known := Known(led.events);
    forall cell: Cell
      ensures PeriodTotals(led, cell.keyHash, cell.period) ==
                Plus(PeriodTotals(led, cell.keyHash, cell.period),
                     Plus(BillSum(Kept(known, []), cell), BillSum([], cell)))
    {
      NothingSums(cell);
      assert Kept(known, []) == [];
      PlusLaws(PeriodTotals(led, cell.keyHash, cell.period), ZERO, ZERO);
      PlusLaws(ZERO, ZERO, ZERO);
    }
  }

  /** Over any run without resets, whatever it prunes, a cell gains each new identified request once,
      every anonymous delivery, and the deliveries whose row was gone when they were repeated. */
  lemma {:induction false} RunTotals(cfg: Config, sys: Sys, run: seq<Call>, keyHash: string, period: string)
    requires NothingReset(run)
    ensures var known, bills, cell := Known(sys.led.events), Bills(cfg, sys, run), Cell(keyHash, period);
            PeriodTotals(RunCalls(cfg, sys, run).led, keyHash, period) ==
              Plus(PeriodTotals(sys.led, keyHash, period),
                   Plus(BillSum(Kept(known, bills), cell), BillSum(Recharged(cfg, known, [], sys, run), cell)))
  {
    hide Kept, BillSum, Bills, Recharged, RunCalls, Plus, NothingReset, SeenRequest;
    NothingChargedYet(sys.led);
    RunCharged(cfg, sys.led, [], [], sys, run);
    var bills, again, cell :=
      Bills(cfg, sys, run), Recharged(cfg, Known(sys.led.events), [], sys, run), Cell(keyHash, period);
    assert [] + bills == bills && [] + again == again;
    assert PeriodTotals(RunCalls(cfg, sys, run).led, cell.keyHash, cell.period) ==
      Plus(PeriodTotals(sys.led, cell.keyHash, cell.period),
           Plus(BillSum(Kept(Known(sys.led.events), bills), cell), BillSum(again, cell)));
  }

  // ----- When pruning keeps accounting exactly-once -----

  predicate Delivers(t: Call, r: Request) {
    t.op.RecordUsage? && t.op.event.requestID == r.id && t.op.event.keyHash == r.keyHash
  }

  ghost predicate DeliveredIn(run: seq<Call>, r: Request) { exists i :: 0 <= i < |run| && Delivers(run[i], r) }

  /** No prune deletes the last row of a request that the run delivers again later. */
  ghost predicate PruneSafe(cfg: Config, sys: Sys, run: seq<Call>)
    decreases |run|
  {
    run == [] || (LosesNoRepeat(sys, run) && PruneSafe(cfg, Do(cfg, sys, run[0]), run[1..]))
  }

  ghost predicate LosesNoRepeat(sys: Sys, run: seq<Call>)
    requires run != []
  {
    run[0].op.Prune? ==> forall r: Request :: (
      r.id != "" && r in Known(sys.led.events) && r !in Known(PruneRows(sys.led.events, Ts(run[0].op.before))) ==>
        !DeliveredIn(run[1..], r))
  }

  lemma {:induction false} DeliveredSplits(run: seq<Call>, r: Request)
    requires run != []
    ensures DeliveredIn(run, r) <==> Delivers(run[0], r) || DeliveredIn(run[1..], r)
  {
    if DeliveredIn(run[1..], r) {
      var i :| 0 <= i < |run[1..]| && Delivers(run[1..][i], r);
      assert run[i + 1] == run[1..][i];
    }
    if DeliveredIn(run, r) {
      var i :| 0 <= i < |run| && Delivers(run[i], r);
      if i > 0 { assert run[1..][i - 1] == run[i]; }
    }
  }

  /** What a step does to the requests that have rows. */
  lemma {:induction false} StepKnown(cfg: Config, sys: Sys, t: Call, r: Request)
    requires r.id != ""
    ensures var before, after := Known(sys.led.events), Known(Do(cfg, sys, t).led.events);
            && (Delivers(t, r) ==> r in after)
            && (r !in before && !Delivers(t, r) ==> r !in after)
            && (!t.op.Prune? && r in before ==> r in after)
            && (t.op.Prune? ==> after == Known(PruneRows(sys.led.events, Ts(t.op.before))))
  {
    hide Duplicate, Known, Charge, PeriodAt, Move, PruneRows, FillTotal, Ts;
    match t.op
    case RecordUsage(_) =>
      var row := DeliveredRow(cfg, sys, t);
      PostKnown(sys.led, row);
      DuplicateIsKnown(sys.led.events, row);
    case Prune(before) => PruneForgets(sys.led.events, Ts(before));
    case _ =>
  }

  lemma {:induction false} SeenMore(known: set<Request>, bills: seq<Bill>, bill: Bill, r: Request)
    ensures SeenRequest(known, bills + [bill], r) <==> SeenRequest(known, bills, r) || RequestOf(bill) == r
  {
    assert forall b :: b in bills + [bill] <==> b in bills || b == bill;
    assert (bills + [bill])[|bills|] == bill;
  }

  lemma {:induction false} RepeatsIsSeen(known: set<Request>, bills: seq<Bill>, bill: Bill)
    ensures Repeats(known, bills, bill) <==> bill.requestID != "" && SeenRequest(known, bills, RequestOf(bill))
  {
  }

  lemma {:induction false} StepSeen(cfg: Config, known: set<Request>, bills: seq<Bill>, sys: Sys, t: Call, r: Request)
    requires r.id != ""
    ensures SeenRequest(known, BillsAfter(cfg, bills, sys, t), r) <==> SeenRequest(known, bills, r) || Delivers(t, r)
    ensures (StepRecharged(cfg, known, bills, sys, t) != [] && Delivers(t, r)) <==>
            Delivers(t, r) && SeenRequest(known, bills, r) && r !in Known(sys.led.events)
  {
    hide Duplicate, Repeats, Known, SeenRequest, Charge, PeriodAt, FillTotal, Ts;
    if t.op.RecordUsage? {
      var row := DeliveredRow(cfg, sys, t);
      var bill := BillOf(row);
      SeenMore(known, bills, bill, r);
      DuplicateIsKnown(sys.led.events, row);
      RepeatsIsSeen(known, bills, bill);
    }
  }

  /** A request that has been seen, has no row and is delivered again is charged again. */
  lemma {:induction false} MissingIsRecharged(
    cfg: Config, known: set<Request>, bills: seq<Bill>, sys: Sys, run: seq<Call>, r: Request)
    requires r.id != "" && SeenRequest(known, bills, r) && r !in Known(sys.led.events) && DeliveredIn(run, r)
    ensures Recharged(cfg, known, bills, sys, run) != []
    decreases |run|
  {
    hide SeenRequest, Known, DeliveredIn, Delivers, StepRecharged, BillsAfter, Do;
    assert run != [] by { NotDeliveredInNothing(r); }
    var t := run[0];
    DeliveredSplits(run, r);
    StepSeen(cfg, known, bills, sys, t, r);
    StepKnown(cfg, sys, t, r);
    if !Delivers(t, r) {
      MissingIsRecharged(cfg, known, BillsAfter(cfg, bills, sys, t), Do(cfg, sys, t), run[1..], r);
    }
  }

  lemma {:induction false} NotDeliveredInNothing(r: Request)
    ensures !DeliveredIn([], r)
  {
  }

  /** Every seen request that is still to be delivered has its row. */
  ghost predicate RowsHeld(known: set<Request>, bills: seq<Bill>, led: Books, run: seq<Call>) {
    forall r: Request :: r.id != "" && DeliveredIn(run, r) && SeenRequest(known, bills, r) ==> r in Known(led.events)
  }

  ghost predicate RowsSeen(known: set<Request>, bills: seq<Bill>, led: Books) {
    forall r: Request :: r.id != "" && r in Known(led.events) ==> SeenRequest(known, bills, r)
  }

  lemma {:induction false} StepHolds(cfg: Config, known: set<Request>, bills: seq<Bill>, sys: Sys, run: seq<Call>)
    requires run != [] && RowsHeld(known, bills, sys.led, run) && RowsSeen(known, bills, sys.led)
    ensures StepRecharged(cfg, known, bills, sys, run[0]) == []
    ensures RowsSeen(known, BillsAfter(cfg, bills, sys, run[0]), Do(cfg, sys, run[0]).led)
    ensures LosesNoRepeat(sys, run) ==>
              RowsHeld(known, BillsAfter(cfg, bills, sys, run[0]), Do(cfg, sys, run[0]).led, run[1..])
  {
    hide SeenRequest, Known, DeliveredIn, Delivers, StepRecharged, BillsAfter, Do, PruneRows;
    var t := run[0];
    forall r: Request | r.id != ""
      ensures r in Known(Do(cfg, sys, t).led.events) ==> SeenRequest(known, BillsAfter(cfg, bills, sys, t), r)
      ensures LosesNoRepeat(sys, run) && DeliveredIn(run[1..], r)
                && SeenRequest(known, BillsAfter(cfg, bills, sys, t), r) ==>
                r in Known(Do(cfg, sys, t).led.events)
    {
      StepKnown(cfg, sys, t, r);
      StepSeen(cfg, known, bills, sys, t, r);
      DeliveredSplits(run, r);
    }
    if StepRecharged(cfg, known, bills, sys, t) != [] {
      var r := RechargedRequest(cfg, known, bills, sys, t);
      StepSeen(cfg, known, bills, sys, t, r);
      DeliveredSplits(run, r);
    }
  }

  lemma {:induction false} RechargedRequest(
    cfg: Config, known: set<Request>, bills: seq<Bill>, sys: Sys, t: Call) returns (r: Request)
    requires StepRecharged(cfg, known, bills, sys, t) != []
    ensures r.id != "" && Delivers(t, r)
  {
    r := Request(t.op.event.requestID, t.op.event.keyHash);
  }

  /** Nothing is charged again exactly when no prune deletes a row that a later delivery needs. */
  lemma {:induction false} RechargedIffPruned(
    cfg: Config, known: set<Request>, bills: seq<Bill>, sys: Sys, run: seq<Call>)
    requires RowsHeld(known, bills, sys.led, run) && RowsSeen(known, bills, sys.led)
    ensures Recharged(cfg, known, bills, sys, run) == [] <==> PruneSafe(cfg, sys, run)
    decreases |run|
  {
    hide RowsHeld, RowsSeen, LosesNoRepeat, StepRecharged, BillsAfter, Do, SeenRequest, Known, DeliveredIn;
    if run != [] {
      var t := run[0];
      var after, next := BillsAfter(cfg, bills, sys, t), Do(cfg, sys, t);
      StepHolds(cfg, known, bills, sys, run);
      if LosesNoRepeat(sys, run) {
        RechargedIffPruned(cfg, known, after, next, run[1..]);
      } else {
        var r := LostRepeat(sys, run);
        StepKnown(cfg, sys, t, r);
        SeenAtPrune(known, bills, sys, r);
        assert after == bills by { NoBillAtPrune(cfg, bills, sys, t); }
        MissingIsRecharged(cfg, known, after, next, run[1..], r);
      }
    }
  }

  lemma {:induction false} LostRepeat(sys: Sys, run: seq<Call>) returns (r: Request)
    requires run != [] && !LosesNoRepeat(sys, run)
    ensures r.id != "" && run[0].op.Prune? && r in Known(sys.led.events) && DeliveredIn(run[1..], r)
    ensures r !in Known(PruneRows(sys.led.events, Ts(run[0].op.before)))
  {
    r :| r.id != "" && r in Known(sys.led.events) && r !in Known(PruneRows(sys.led.events, Ts(run[0].op.before)))
      && DeliveredIn(run[1..], r);
  }

  lemma {:induction false} SeenAtPrune(known: set<Request>, bills: seq<Bill>, sys: Sys, r: Request)
    requires RowsSeen(known, bills, sys.led) && r.id != "" && r in Known(sys.led.events)
    ensures SeenRequest(known, bills, r)
  {
  }

  lemma {:induction false} NoBillAtPrune(cfg: Config, bills: seq<Bill>, sys: Sys, t: Call)
    requires t.op.Prune?
    ensures BillsAfter(cfg, bills, sys, t) == bills
  {
  }

  /** Every identified delivery that is repeated after a prune was stamped at least a second after the
      prune's cutoff: repetitions come within the retention time. */
  ghost predicate RepeatsInRetention(run: seq<Call>) {
    forall i, p, k :: (
      0 <= i < p < k < |run| && run[i].op.RecordUsage? && run[p].op.Prune? && run[i].op.event.requestID != ""
      && Delivers(run[k], Request(run[i].op.event.requestID, run[i].op.event.keyHash)) ==>
        Outlasts(Stamp(run[i].op.event, run[i].at), run[p].op.before))
  }

  predicate Outlasts(stamp: Instant, before: Instant) {
    Printable(stamp) && Printable(before) && before + SECOND <= stamp
  }

  /** The same for requests that have a row. */
  ghost predicate RowsInRetention(events: seq<EventRow>, run: seq<Call>) {
    forall row, p, k :: (
      row in events && row.requestID != "" && 0 <= p < k < |run| && run[p].op.Prune?
      && Delivers(run[k], Request(row.requestID, row.keyHash)) ==>
        !Text.Less(row.ts, Ts(run[p].op.before)))
  }

  lemma {:induction false} RetentionStep(cfg: Config, sys: Sys, run: seq<Call>)
    requires run != [] && RowsInRetention(sys.led.events, run) && RepeatsInRetention(run)
    ensures RowsInRetention(Do(cfg, sys, run[0]).led.events, run[1..]) && RepeatsInRetention(run[1..])
  {
    hide Text.Less, Ts, Printable, PeriodAt, Move, Charge, FillTotal, Duplicate;
    var t, rest := run[0], run[1..];
    assert forall i :: 0 <= i < |rest| ==> rest[i] == run[i + 1];
    BeforeKeepsUsage(cfg, sys.led, t.op);
    forall row, p, k | row in Do(cfg, sys, t).led.events && row.requestID != "" && 0 <= p < k < |rest|
      && rest[p].op.Prune?
                       && Delivers(rest[k], Request(row.requestID, row.keyHash))
      ensures !Text.Less(row.ts, Ts(rest[p].op.before))
    {
      assert rest[p] == run[p + 1] && rest[k] == run[k + 1];
      if row !in sys.led.events {
        var stamp, before := Stamp(t.op.event, t.at), rest[p].op.before;
        assert row == DeliveredRow(cfg, sys, t);
        assert Outlasts(stamp, before);
        TextDecisionsWithinOneSecond(stamp, before);
      }
    }
    forall i, p, k | 0 <= i < p < k < |rest| && rest[i].op.RecordUsage? && rest[p].op.Prune?
      && rest[i].op.event.requestID != ""
                     && Delivers(rest[k], Request(rest[i].op.event.requestID, rest[i].op.event.keyHash))
      ensures Outlasts(Stamp(rest[i].op.event, rest[i].at), rest[p].op.before)
    {
      assert rest[i] == run[i + 1] && rest[p] == run[p + 1] && rest[k] == run[k + 1];
    }
  }

  lemma {:induction false} RetentionKeepsRow(sys: Sys, run: seq<Call>)
    requires run != [] && RowsInRetention(sys.led.events, run)
    ensures LosesNoRepeat(sys, run)
  {
    hide Text.Less, Ts;
    if run[0].op.Prune? {
      forall r: Request | r.id != "" && r in Known(sys.led.events) && DeliveredIn(run[1..], r)
        ensures r in Known(PruneRows(sys.led.events, Ts(run[0].op.before)))
      {
        var k :| 0 <= k < |run[1..]| && Delivers(run[1..][k], r);
        assert run[k + 1] == run[1..][k];
        var row :| row in sys.led.events && r == Request(row.requestID, row.keyHash);
        assert row in PruneRows(sys.led.events, Ts(run[0].op.before));
      }
    }
  }

  /** So accounting is exactly-once when every repetition comes within the retention time. */
  lemma {:induction false} RetentionSuffices(cfg: Config, sys: Sys, run: seq<Call>)
    requires RowsInRetention(sys.led.events, run) && RepeatsInRetention(run)
    ensures PruneSafe(cfg, sys, run)
    decreases |run|
  {
    hide RowsInRetention, RepeatsInRetention, LosesNoRepeat, Do;
    if run != [] {
      RetentionKeepsRow(sys, run);
      RetentionStep(cfg, sys, run);
      RetentionSuffices(cfg, Do(cfg, sys, run[0]), run[1..]);
    }
  }

  /** Every bill is for one request. */
  ghost predicate EachOne(bills: seq<Bill>) { forall b :: b in bills ==> b.charge.requests == 1 }

  lemma {:induction false} SomethingCharged(bills: seq<Bill>, cell: Cell)
    requires EachOne(bills)
    ensures BillSum(bills, cell).requests >= 0
    ensures bills != [] && bills[0].cell == cell ==> BillSum(bills, cell).requests >= 1
  {
    if bills != [] {
      var init, last := bills[..|bills| - 1], bills[|bills| - 1];
      assert forall b :: b in init ==> b in bills;
      SomethingCharged(init, cell);
      PlusRequests(BillSum(init, cell), BillShare(last, cell));
    }
  }

  lemma {:induction false} RechargedEachOne(
    cfg: Config, known: set<Request>, bills: seq<Bill>, sys: Sys, run: seq<Call>)
    ensures EachOne(Recharged(cfg, known, bills, sys, run))
    decreases |run|
  {
    hide Duplicate, Repeats, Do, DeliveredRow, Wrap64;
    if run != [] {
      RechargedEachOne(cfg, known, BillsAfter(cfg, bills, sys, run[0]), Do(cfg, sys, run[0]), run[1..]);
    }
  }

  lemma {:induction false} NoneRecharged(cfg: Config, sys: Sys, run: seq<Call>)
    ensures Recharged(cfg, Known(sys.led.events), [], sys, run) == [] <==> PruneSafe(cfg, sys, run)
  {
    hide Known, DeliveredIn;
    RechargedIffPruned(cfg, Known(sys.led.events), [], sys, run);
  }

  /** Over a run without resets every cell ends with each new identified request charged once, and every
      anonymous delivery, exactly when no prune deletes the row of a request that comes again. */
  lemma {:induction false} ChargedOnceIffPruneSafe(cfg: Config, sys: Sys, run: seq<Call>)
    requires NothingReset(run)
    ensures PruneSafe(cfg, sys, run) <==> forall cell: Cell ::
              PeriodTotals(RunCalls(cfg, sys, run).led, cell.keyHash, cell.period) ==
                Plus(PeriodTotals(sys.led, cell.keyHash, cell.period),
                     BillSum(Kept(Known(sys.led.events), Bills(cfg, sys, run)), cell))
  {
    hide Kept, BillSum, Bills, Recharged, RunCalls, NothingReset, PruneSafe, Known, PeriodTotals;
    var known, bills := Known(sys.led.events), Bills(cfg, sys, run);
    var again := Recharged(cfg, known, [], sys, run);
    NoneRecharged(cfg, sys, run);
    forall cell: Cell
      ensures PeriodTotals(RunCalls(cfg, sys, run).led, cell.keyHash, cell.period) ==
                Plus(PeriodTotals(sys.led, cell.keyHash, cell.period),
                     Plus(BillSum(Kept(known, bills), cell), BillSum(again, cell)))
    {
      RunTotals(cfg, sys, run, cell.keyHash, cell.period);
      assert Cell(cell.keyHash, cell.period) == cell;
    }
    if PruneSafe(cfg, sys, run) {
      forall cell: Cell
        ensures BillSum(again, cell) == ZERO
      {
        NothingSums(cell);
      }
    } else {
      RechargedEachOne(cfg, known, [], sys, run);
      SomethingCharged(again, again[0].cell);
    }
  }

  lemma {:induction false} NothingSums(cell: Cell)
    ensures BillSum([], cell) == ZERO
  {
  }

  /** A delivery, a prune a day later of all that is older than a day, and the delivery again. */
  function PrunedBetween(event: UsageEvent): seq<Call> {
    var later := 24 * HOUR + 2 * SECOND;
    [Call(0, RecordUsage(event)), Call(later, Prune(2 * SECOND)), Call(later, RecordUsage(event))]
  }

  /** It is charged twice. */
  lemma {:induction false} PrunedRepeatIsCharged(cfg: Config, event: UsageEvent)
    requires !cfg.weekly && event.requestID != "" && event.timestamp == 0
    ensures var end := RunCalls(cfg, Sys(None, Books(map[], [], map[])), PrunedBetween(event)).led;
            PeriodTotals(end, event.keyHash, cfg.labels(0)).requests == 2
  {
    hide Ts, FillTotal;
    var run, empty := PrunedBetween(event), Books(map[], [], map[]);
    var row := RowOf(event, 0, cfg.labels(0));
    FourDigitYears(0);
    FourDigitYears(2 * SECOND);
    TextOrderAcrossSeconds(0, 2 * SECOND);
    PruneOne(row, Ts(2 * SECOND));
    OneCharge(row);
    var a := Do(cfg, Sys(None, empty), run[0]);
    var b := Do(cfg, a, run[1]);
    var c := Do(cfg, b, run[2]);
    assert a.led == Post(empty, row) && b.led == a.led.(events := []) && c.led == Post(b.led, row);
    assert run[1..][0] == run[1] && run[1..][1..] == [run[2]] && [run[2]][1..] == [];
    assert RunCalls(cfg, b, [run[2]]) == c;
    assert RunCalls(cfg, a, run[1..]) == c;
  }

  lemma {:induction false} PruneOne(row: EventRow, before: string)
    requires Text.Less(row.ts, before)
    ensures PruneRows([row], before) == []
  {
    assert [row][1..] == [];
  }

  /** An event posted on a table without events adds its charge. */
  lemma {:induction false} OneCharge(row: EventRow)
    ensures forall led: Books :: led.events == [] ==>
              && Post(led, row).events == [row]
              && PeriodTotals(Post(led, row), row.keyHash, row.month).requests ==
                 PeriodTotals(led, row.keyHash, row.month).requests + 1
  {
    hide Wrap64;
  }

  /** Two runs over the same tables that deliver the same identified requests, in any order and as
      often as they like, and the same anonymous deliveries, end with the same counters for every
      key and period; in particular both equal the run that delivers each request once. */
  lemma {:induction false} ExactlyOnce(
    cfg: Config, a: Sys, runA: seq<Call>, b: Sys, runB: seq<Call>, keyHash: string, period: string)
    requires a.led.events == b.led.events && a.led.usage == b.led.usage
    requires NothingReset(runA) && PruneSafe(cfg, a, runA) && NothingReset(runB) && PruneSafe(cfg, b, runB)
    requires Consistent(Bills(cfg, a, runA)) && Consistent(Bills(cfg, b, runB))
    requires NewRequests(Known(a.led.events), Bills(cfg, a, runA)) ==
              NewRequests(Known(b.led.events), Bills(cfg, b, runB))
    requires multiset(Anonymous(Bills(cfg, a, runA))) == multiset(Anonymous(Bills(cfg, b, runB)))
    ensures PeriodTotals(RunCalls(cfg, a, runA).led, keyHash, period) ==
              PeriodTotals(RunCalls(cfg, b, runB).led, keyHash, period)
  {
    hide Kept, BillSum, NewRequests, Anonymous, Consistent, Bills, RunCalls, Plus, NothingReset, PruneSafe;
    var ba, bb := Bills(cfg, a, runA), Bills(cfg, b, runB);
    var known, cell := Known(a.led.events), Cell(keyHash, period);
    ChargedOnceIffPruneSafe(cfg, a, runA);
    ChargedOnceIffPruneSafe(cfg, b, runB);
    KeptIsOnce(known, ba);
    KeptIsOnce(known, bb);
    BillSumPermutes(Kept(known, ba), Kept(known, bb), cell);
    assert PeriodTotals(RunCalls(cfg, a, runA).led, cell.keyHash, cell.period) ==
      Plus(PeriodTotals(a.led, cell.keyHash, cell.period), BillSum(Kept(known, ba), cell));
  }
}
