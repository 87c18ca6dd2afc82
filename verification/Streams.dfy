/** Per-stream accounting in one shared map: chunks of any number of streams arrive interleaved. */
module Streams {
  import opened Base
  import opened Text
  import opened Convert

  const TTL: int := HOUR

  /** The chunks kept for a stream, and when it last delivered one. */
  datatype StreamState = StreamState(chunks: seq<string>, updatedAt: Instant)

  type Table = map<string, StreamState>

  /** A chunk delivered on a stream; the key joins the request ID and the caller's key hash. */
  datatype Chunk = Chunk(key: string, body: string, at: Instant)

  function StateKey(requestID: string, keyHash: string): string { requestID + ['\0'] + keyHash }

  /** Hashes have one length, so a key determines its request and caller. */
  lemma {:induction false} StateKeyInjective(r: string, h: string, r2: string, h2: string)
    requires |h| == |h2|
    ensures StateKey(r, h) == StateKey(r2, h2) <==> r == r2 && h == h2
  {
    var s, n := StateKey(r, h), |r|;
    if s == StateKey(r2, h2) {
      assert r == s[..n] && r2 == s[..n] && h == s[n + 1..] && h2 == s[n + 1..];
    }
  }

  predicate Carries(j: Json, c: Chunk) { Objects(j, c.body) != [] }

  // ----- One delivery -----

  /** Other streams idle for more than the TTL are dropped; the delivering one never is. */
  predicate Survives(table: Table, k: string, c: Chunk)
    requires k in table
  {
    k == c.key || c.at - table[k].updatedAt <= TTL
  }

  function Evict(table: Table, c: Chunk): Table {
    map k | k in table && Survives(table, k, c) :: table[k]
  }

  function KeptBefore(table: Table, k: string): seq<string> { if k in table then table[k].chunks else [] }

  function KeptWith(j: Json, table: Table, c: Chunk): seq<string> {
    KeptBefore(table, c.key) + (if Carries(j, c) then [c.body] else [])
  }

  /** The table after a chunk. */
  function Deliver(j: Json, table: Table, c: Chunk): Table {
    var evicted := Evict(table, c);
    var updated := if c.key in table || Carries(j, c) then evicted[c.key := StreamState(KeptWith(j, table, c), c.at)]
      else evicted;
    if Terminal(j, c.body) then updated - {c.key} else updated
  }

  /** The body accounted for at a terminal chunk, if anything was kept. */
  function Accounted(j: Json, table: Table, c: Chunk): Option<string> {
    if Terminal(j, c.body) && KeptWith(j, table, c) != [] then Some(JoinLines(KeptWith(j, table, c))) else None
  }

  function DeliverAll(j: Json, table: Table, chunks: seq<Chunk>): Table {
    if chunks == [] then table
    else Deliver(j, DeliverAll(j, table, chunks[..|chunks| - 1]), chunks[|chunks| - 1])
  }

  // ----- Each stream alone -----

  /** The bodies a stream itself delivered since its previous terminal chunk. */
  function Since(j: Json, chunks: seq<Chunk>, k: string): seq<string> {
    if chunks == [] then []
    else
      var init, last := Since(j, chunks[..|chunks| - 1], k), chunks[|chunks| - 1];
      if last.key != k then init else if Terminal(j, last.body) then [] else init + [last.body]
  }

  /** Those of them that carry usage. */
  function Pending(j: Json, chunks: seq<Chunk>, k: string): seq<string> { WithUsage(j, Since(j, chunks, k)) }

  /** When the stream last delivered a chunk. */
  function LastAt(chunks: seq<Chunk>, k: string): Option<Instant> {
    if chunks == [] then None
    else if chunks[|chunks| - 1].key == k then Some(chunks[|chunks| - 1].at)
    else LastAt(chunks[..|chunks| - 1], k)
  }

  /** The shared table holds for a stream exactly what the stream itself delivered. */
  ghost predicate Faithful(j: Json, table: Table, chunks: seq<Chunk>, k: string) {
    var pending, last := Pending(j, chunks, k), LastAt(chunks, k);
    if pending == [] then k !in table
    else last.Some? && k in table && table[k] == StreamState(pending, last.value)
  }

  /** No other stream's chunk arrives while this one has usage pending and was last heard of more than
      the TTL before. */
  ghost predicate Unexpired(j: Json, chunks: seq<Chunk>, k: string) {
    forall n :: 0 <= n < |chunks| ==> InTime(j, chunks[..n], chunks[n], k)
  }

  ghost predicate InTime(j: Json, before: seq<Chunk>, c: Chunk, k: string) {
    c.key == k || Pending(j, before, k) == [] || LastAt(before, k).None? || c.at - LastAt(before, k).value <= TTL
  }

  lemma {:induction false} WithUsageSnoc(j: Json, parts: seq<string>, p: string)
    ensures WithUsage(j, parts + [p]) == WithUsage(j, parts) + (if Objects(j, p) != [] then [p] else [])
  {
    hide Objects;
    if parts == [] {
      assert parts + [p] == [p] && [p][1..] == [];
    } else {
      assert (parts + [p])[1..] == parts[1..] + [p];
      WithUsageSnoc(j, parts[1..], p);
    }
  }

  lemma {:induction false} PendingHeard(j: Json, chunks: seq<Chunk>, k: string)
    ensures Since(j, chunks, k) != [] ==> LastAt(chunks, k).Some?
  {
    if chunks != [] { PendingHeard(j, chunks[..|chunks| - 1], k); }
  }

  lemma {:induction false} DeliveryFaithful(j: Json, table: Table, before: seq<Chunk>, c: Chunk, k: string)
    requires Faithful(j, table, before, k)
    ensures Faithful(j, Deliver(j, table, c), before + [c], k) <==> InTime(j, before, c, k)
  {
    hide Objects, Terminal, WithUsage;
    assert (before + [c])[..|before|] == before;
    PendingHeard(j, before, k);
    if c.key == k {
      WithUsageSnoc(j, Since(j, before, k), c.body);
      assert WithUsage(j, []) == [] by { NothingKept(j); }
    }
  }

  lemma {:induction false} NothingKept(j: Json)
    ensures WithUsage(j, []) == []
  {
  }

  lemma {:induction false} DeliverAllSnoc(j: Json, chunks: seq<Chunk>, n: nat)
    requires n < |chunks|
    ensures chunks[..n + 1] == chunks[..n] + [chunks[n]]
    ensures DeliverAll(j, map[], chunks[..n + 1]) == Deliver(j, DeliverAll(j, map[], chunks[..n]), chunks[n])
  {
    hide Deliver;
    assert chunks[..n + 1][..n] == chunks[..n];
  }

  lemma {:induction false} UnexpiredFaithful(j: Json, chunks: seq<Chunk>, k: string, n: nat)
    requires n <= |chunks| && Unexpired(j, chunks, k)
    ensures Faithful(j, DeliverAll(j, map[], chunks[..n]), chunks[..n], k)
    decreases n
  {
    hide Deliver, InTime, Terminal, Objects;
    if n == 0 {
      NothingKept(j);
    } else {
      UnexpiredFaithful(j, chunks, k, n - 1);
      DeliverAllSnoc(j, chunks, n - 1);
      DeliveryFaithful(j, DeliverAll(j, map[], chunks[..n - 1]), chunks[..n - 1], chunks[n - 1], k);
    }
  }

  /** For every interleaving, the table stays faithful to a stream exactly when the stream is never
      overdue while another one delivers. */
  lemma {:induction false} FaithfulIffUnexpired(j: Json, chunks: seq<Chunk>, k: string)
    ensures (forall n :: 0 <= n <= |chunks| ==> Faithful(j, DeliverAll(j, map[], chunks[..n]), chunks[..n], k))
              <==> Unexpired(j, chunks, k)
  {
    hide Faithful, Deliver, InTime;
    if Unexpired(j, chunks, k) {
      forall n | 0 <= n <= |chunks| { UnexpiredFaithful(j, chunks, k, n); }
    } else {
      var n :| 0 <= n < |chunks| && !InTime(j, chunks[..n], chunks[n], k);
      var table := DeliverAll(j, map[], chunks[..n]);
      DeliverAllSnoc(j, chunks, n);
      if Faithful(j, table, chunks[..n], k) {
        DeliveryFaithful(j, table, chunks[..n], chunks[n], k);
        assert !Faithful(j, DeliverAll(j, map[], chunks[..n + 1]), chunks[..n + 1], k);
      }
    }
  }

  // ----- What one terminal chunk accounts for -----

  /** Since the stream's previous terminal chunk, another stream's chunk has arrived when it was overdue. */
  ghost predicate OverdueNow(j: Json, chunks: seq<Chunk>, k: string) {
    if chunks == [] then false
    else
      var before, c := chunks[..|chunks| - 1], chunks[|chunks| - 1];
      if c.key == k then !Terminal(j, c.body) && OverdueNow(j, before, k)
      else OverdueNow(j, before, k) || !InTime(j, before, c, k)
  }

  /** The table has lost the first of the chunks it should hold for the stream. */
  ghost predicate Truncated(j: Json, table: Table, chunks: seq<Chunk>, k: string) {
    var kept, pending := KeptBefore(table, k), Pending(j, chunks, k);
    |kept| < |pending| && kept == pending[|pending| - |kept|..]
  }

  ghost predicate Holds(j: Json, table: Table, chunks: seq<Chunk>, k: string) {
    if OverdueNow(j, chunks, k) then Truncated(j, table, chunks, k) else Faithful(j, table, chunks, k)
  }

  lemma {:induction false} SuffixSnoc(s: seq<string>, tail: seq<string>, x: string)
    requires |tail| < |s| && tail == s[|s| - |tail|..]
    ensures tail + [x] == (s + [x])[|s + [x]| - |tail + [x]|..]
  {
  }

  lemma {:induction false} DeliveryHolds(j: Json, table: Table, before: seq<Chunk>, c: Chunk, k: string)
    requires Holds(j, table, before, k)
    ensures Holds(j, Deliver(j, table, c), before + [c], k)
  {
    hide Objects, Terminal, WithUsage, Faithful, InTime;
    var all := before + [c];
    assert all[..|before|] == before;
    if OverdueNow(j, before, k) {
      DeliveryTruncated(j, table, before, c, k);
    } else {
      DeliveryFaithful(j, table, before, c, k);
      if c.key == k { OwnInTime(j, before, c, k); }
      if !InTime(j, before, c, k) { OverdueEvicts(j, table, before, c, k); }
    }
  }

  lemma {:induction false} OwnInTime(j: Json, before: seq<Chunk>, c: Chunk, k: string)
    requires c.key == k
    ensures InTime(j, before, c, k)
  {
  }

  lemma {:induction false} DeliveryTruncated(j: Json, table: Table, before: seq<Chunk>, c: Chunk, k: string)
    requires Truncated(j, table, before, k)
    ensures if c.key == k && Terminal(j, c.body) then Faithful(j, Deliver(j, table, c), before + [c], k)
            else Truncated(j, Deliver(j, table, c), before + [c], k)
  {
    hide Objects, Terminal, WithUsage;
    assert (before + [c])[..|before|] == before;
    if c.key == k {
      OwnTruncated(j, table, before, c);
    } else {
      assert Since(j, before + [c], k) == Since(j, before, k);
      assert KeptBefore(Deliver(j, table, c), k) == KeptBefore(table, k) || KeptBefore(Deliver(j, table, c), k) == [];
    }
  }

  lemma {:induction false} OwnTruncated(j: Json, table: Table, before: seq<Chunk>, c: Chunk)
    requires Truncated(j, table, before, c.key)
    ensures if Terminal(j, c.body) then Faithful(j, Deliver(j, table, c), before + [c], c.key)
            else Truncated(j, Deliver(j, table, c), before + [c], c.key)
  {
    hide Objects, Terminal, WithUsage;
    var k, after := c.key, Deliver(j, table, c);
    assert (before + [c])[..|before|] == before;
    if Terminal(j, c.body) {
      NothingKept(j);
      assert k !in after;
    } else {
      var kept, pending := KeptBefore(table, k), Pending(j, before, k);
      WithUsageSnoc(j, Since(j, before, k), c.body);
      SuffixSnoc(pending, kept, c.body);
      assert Since(j, before + [c], k) == Since(j, before, k) + [c.body];
      assert kept + [] == kept && pending + [] == pending;
      assert KeptBefore(after, k) == if Carries(j, c) then kept + [c.body] else kept;
      assert Pending(j, before + [c], k) == if Carries(j, c) then pending + [c.body] else pending;
    }
  }

  lemma {:induction false} OverdueEvicts(j: Json, table: Table, before: seq<Chunk>, c: Chunk, k: string)
    requires Faithful(j, table, before, k) && !InTime(j, before, c, k)
    ensures Truncated(j, Deliver(j, table, c), before + [c], k)
  {
    hide Objects, Terminal, WithUsage;
    assert (before + [c])[..|before|] == before;
  }

  lemma {:induction false} TableHolds(j: Json, chunks: seq<Chunk>, k: string)
    ensures Holds(j, DeliverAll(j, map[], chunks), chunks, k)
  {
    hide Deliver, Faithful, Truncated, InTime, Terminal;
    if chunks == [] {
      NothingKept(j);
      assert Faithful(j, map[], [], k) by { NothingFaithful(j, k); }
    } else {
      var n := |chunks| - 1;
      assert chunks == chunks[..n] + [chunks[n]];
      TableHolds(j, chunks[..n], k);
      DeliveryHolds(j, DeliverAll(j, map[], chunks[..n]), chunks[..n], chunks[n], k);
    }
  }

  lemma {:induction false} NothingFaithful(j: Json, k: string)
    ensures Faithful(j, map[], [], k)
  {
    NothingKept(j);
  }

  lemma {:induction false} JoinedLength(a: seq<string>, b: seq<string>)
    requires a != [] && b != []
    ensures |JoinLines(a + b)| > |JoinLines(b)|
    decreases |a|
  {
    assert (a + b)[1..] == a[1..] + b;
    if |a| == 1 { assert a[1..] + b == b; } else { JoinedLength(a[1..], b); }
  }

  /** The stream's own usage-bearing chunks from its previous terminal chunk to this one. */
  function OwnChunks(j: Json, chunks: seq<Chunk>, c: Chunk): seq<string> {
    WithUsage(j, Since(j, chunks, c.key) + [c.body])
  }

  /** What the table holds when a chunk arrives, with the chunk: all of them, or without some of the first. */
  lemma {:induction false} KeptAtChunk(j: Json, chunks: seq<Chunk>, c: Chunk) returns (lost: seq<string>)
    ensures OwnChunks(j, chunks, c) == lost + KeptWith(j, DeliverAll(j, map[], chunks), c)
    ensures lost == [] <==> !OverdueNow(j, chunks, c.key)
  {
    hide Objects, Terminal, Deliver, WithUsage, OverdueNow;
    var k, table := c.key, DeliverAll(j, map[], chunks);
    TableHolds(j, chunks, k);
    WithUsageSnoc(j, Since(j, chunks, k), c.body);
    var kept, pending := KeptBefore(table, k), Pending(j, chunks, k);
    lost := pending[..|pending| - |kept|];
    assert pending == lost + kept;
  }

  /** At a terminal chunk the newline-join of the stream's own usage-bearing chunks since its previous
      terminal one is accounted for exactly when the stream has not been overdue in between, whatever
      other streams did. No other chunk accounts for anything. */
  lemma {:induction false} AccountsOwnChunks(j: Json, chunks: seq<Chunk>, c: Chunk)
    ensures var own, accounted := OwnChunks(j, chunks, c), Accounted(j, DeliverAll(j, map[], chunks), c);
            if Terminal(j, c.body)
            then accounted == (if own != [] then Some(JoinLines(own)) else None) <==> !OverdueNow(j, chunks, c.key)
            else accounted.None?
  {
    hide Objects, Terminal, Deliver, OverdueNow, KeptWith, OwnChunks, JoinLines;
    var lost := KeptAtChunk(j, chunks, c);
    var kept := KeptWith(j, DeliverAll(j, map[], chunks), c);
    if lost == [] {
      assert lost + kept == kept;
    } else if kept != [] {
      JoinedLength(lost, kept);
    }
  }

  lemma {:induction false} UnexpiredIsNotOverdue(j: Json, chunks: seq<Chunk>, k: string)
    requires Unexpired(j, chunks, k)
    ensures !OverdueNow(j, chunks, k)
  {
    hide InTime, Terminal;
    if chunks != [] {
      var n := |chunks| - 1;
      assert forall i :: 0 <= i < n ==> chunks[..n][..i] == chunks[..i] && chunks[..n][i] == chunks[i];
      UnexpiredIsNotOverdue(j, chunks[..n], k);
    }
  }

  // ----- Streams without long gaps are never overdue -----

  ghost predicate InOrder(chunks: seq<Chunk>) {
    forall m, n :: 0 <= m < n < |chunks| ==> chunks[m].at <= chunks[n].at
  }

  /** No gap over one hour between the stream's own chunks. */
  ghost predicate NoLongGap(chunks: seq<Chunk>, k: string) {
    forall n :: 0 <= n < |chunks| && chunks[n].key == k && LastAt(chunks[..n], k).Some?
      ==> chunks[n].at - LastAt(chunks[..n], k).value <= TTL
  }

  /** The stream's next own chunk after a position, when it has one. */
  lemma {:induction false} NextOwn(chunks: seq<Chunk>, k: string, n: nat, end: nat) returns (m: nat)
    requires n <= end < |chunks| && chunks[end].key == k
    ensures n <= m <= end && chunks[m].key == k && LastAt(chunks[..m], k) == LastAt(chunks[..n], k)
    decreases end - n
  {
    if chunks[n].key == k {
      m := n;
    } else {
      assert chunks[..n + 1][..n] == chunks[..n];
      m := NextOwn(chunks, k, n + 1, end);
    }
  }

  lemma {:induction false} NoLongGapIsUnexpired(j: Json, chunks: seq<Chunk>, c: Chunk)
    requires InOrder(chunks + [c]) && NoLongGap(chunks + [c], c.key)
    ensures Unexpired(j, chunks, c.key) && !OverdueNow(j, chunks, c.key)
  {
    hide Pending, OverdueNow;
    var all := chunks + [c];
    forall n | 0 <= n < |chunks|
      ensures InTime(j, chunks[..n], chunks[n], c.key)
    {
      var m := NextOwn(all, c.key, n, |chunks|);
      assert all[..n] == chunks[..n] && all[n] == chunks[n];
    }
    UnexpiredIsNotOverdue(j, chunks, c.key);
  }

  // ----- Refinement: each stream's whole text, parsed alone -----

  /** Chunks of one event stream: cut cleanly, with usage in event-stream text only. */
  ghost predicate EventStream(j: Json, parts: seq<string>) {
    CleanCuts(parts) && EventText(j, Concat(parts)) && UsageInEvents(j, parts)
  }

  function AccountedObjects(j: Json, table: Table, c: Chunk): seq<ResponseUsage> {
    match Accounted(j, table, c)
    case None => []
    case Some(text) => Objects(j, text)
  }

  /** For every interleaving, the usage objects accounted for at a terminal chunk are those of the stream's
      own text, parsed alone, exactly when the stream has not been overdue since its previous terminal
      chunk. Then what is recorded is what parsing that text finds, and nothing exactly when it has no
      usage. */
  lemma {:induction false} StreamRefinesWholeText(j: Json, chunks: seq<Chunk>, c: Chunk)
    requires DataLinesAreNotJson(j) && Terminal(j, c.body)
    requires EventStream(j, Since(j, chunks, c.key) + [c.body])
    ensures var whole, table := Concat(Since(j, chunks, c.key) + [c.body]), DeliverAll(j, map[], chunks);
            var accounted := Accounted(j, table, c);
            && (AccountedObjects(j, table, c) == Objects(j, whole) <==> !OverdueNow(j, chunks, c.key))
            && (!OverdueNow(j, chunks, c.key) ==> (accounted.Some? <==> Parse(j, whole).1))
            && (!OverdueNow(j, chunks, c.key) && accounted.Some? ==> Parse(j, accounted.value) == Parse(j, whole))
  {
    hide Terminal, EventText, CleanCuts, DataLinesAreNotJson, Objects, MergeAll, KeptWith, OverdueNow, Deliver, Since;
    var parts := Since(j, chunks, c.key) + [c.body];
    var own, kept := OwnChunks(j, chunks, c), KeptWith(j, DeliverAll(j, map[], chunks), c);
    var lost := KeptAtChunk(j, chunks, c);
    WholeTextParsesChunks(j, parts);
    DroppedChunksChangeNothing(j, parts);
    KeptCarryUsage(j, parts);
    assert forall p :: p in lost + kept <==> p in lost || p in kept;
    AllObjectsAppend(j, lost, kept);
    if kept != [] { JoinOfKept(j, kept); }
    if lost != [] { assert lost[0] in own; }
  }

  lemma {:induction false} AllObjectsAppend(j: Json, a: seq<string>, b: seq<string>)
    ensures AllObjects(j, a + b) == AllObjects(j, a) + AllObjects(j, b)
    ensures a != [] && Objects(j, a[0]) != [] ==> AllObjects(j, a) != []
  {
    hide Objects;
    if a == [] {
      assert a + b == b;
    } else {
      assert (a + b)[1..] == a[1..] + b;
      AllObjectsAppend(j, a[1..], b);
    }
  }

  /** Event-stream chunks cut cleanly and ending with a terminal one are an event stream. */
  lemma {:induction false} TerminalEndsEventStream(j: Json, own: seq<string>, last: string)
    requires DataLinesAreNotJson(j) && Terminal(j, last) && CleanCuts(own + [last])
    requires forall p :: p in own + [last] ==> EventText(j, p)
    ensures EventStream(j, own + [last])
  {
    hide Terminal, EventText, CleanCuts, DataLinesAreNotJson, Objects, AllLineCandidates, LineCandidates;
    assert (own + [last])[|own|] == last;
    TerminalHasCandidates(j, own, last);
    ConcatenatedLines(own + [last]);
    CandidatesMakeEventText(j, Concat(own + [last]));
  }

  lemma {:induction false} TerminalHasCandidates(j: Json, own: seq<string>, last: string)
    requires Terminal(j, last) && EventText(j, last)
    ensures AllLineCandidates(own + [last]) != []
  {
    hide LineCandidates, EventText, Candidates;
    if own == [] {
      assert [last][1..] == [] && own + [last] == [last];
      EventTextCandidates(j, last);
      assert AllLineCandidates([last]) == LineCandidates(last) + AllLineCandidates([]);
    } else {
      assert (own + [last])[1..] == own[1..] + [last];
      TerminalHasCandidates(j, own[1..], last);
    }
  }

  // ----- A stream that is overdue while another delivers -----

  /** Three payloads: five input tokens, none, and seven output tokens that end the stream. */
  function ThreePayloads(): Json {
    var empty := Payload(NONE, NONE, NONE, NO_GEMINI, NO_GEMINI, NO_GEMINI, NO_GEMINI);
    Json(_ => false,
         s => if s == "u" then Some(empty.(usage := NONE.(input := 5)))
              else if s == "v" then Some(empty.(usage := NONE.(output := 7))) else None,
         s => if s == "v" then Some(TerminalPayload("1", "", "", "", [], "", "", [])) else None)
  }

  lemma {:induction false} OnePayload(body: string, payload: char)
    requires body == ['d', 'a', 't', 'a', ':', payload] && !IsSpace(payload) && payload != '['
    ensures Candidates(ThreePayloads(), body) == [[payload]]
    ensures Objects(ThreePayloads(), body) == ObjectsIn(ThreePayloads(), [payload])
    ensures Candidates(ThreePayloads(), body + ['\n']) == Candidates(ThreePayloads(), body)
  {
    hide ObjectsIn;
    var j := ThreePayloads();
    TrimKeeps(body);
    TrimIgnoresEnds(body, '\n');
    assert body[|DATA|..] == [payload];
    TrimKeeps([payload]);
    NoBreaks(body);
    SingleLine(body);
    assert ObjectsOf(j, [[payload]]) == ObjectsOf(j, [[payload]][..0]) + ObjectsIn(j, [payload]);
  }

  lemma {:induction false} NoBreaks(s: string)
    requires '\n' !in s
    ensures Lines(s) == [s]
  {
    if s != [] {
      NoBreaks(s[1..]);
      assert [s[0]] + s[1..] == s;
    }
  }

  lemma {:induction false} PayloadUsage()
    ensures ObjectsIn(ThreePayloads(), "u") == [NONE.(input := 5)]
    ensures ObjectsIn(ThreePayloads(), "v") == [NONE.(output := 7)]
    ensures ObjectsIn(ThreePayloads(), "w") == []
  {
    OneSlot(NONE.(input := 5));
    OneSlot(NONE.(output := 7));
  }

  lemma {:induction false} OneSlot(u: ResponseUsage)
    requires u != NONE
    ensures NonEmpty(Slots(Payload(u, NONE, NONE, NO_GEMINI, NO_GEMINI, NO_GEMINI, NO_GEMINI))) == [u]
  {
    var slots := Slots(Payload(u, NONE, NONE, NO_GEMINI, NO_GEMINI, NO_GEMINI, NO_GEMINI));
    assert slots == [u, NONE, NONE, NONE, NONE, NONE, NONE];
    NonEmptySnoc(slots, 0);
    NonEmptySnoc(slots, 1);
    NonEmptySnoc(slots, 2);
    NonEmptySnoc(slots, 3);
    NonEmptySnoc(slots, 4);
    NonEmptySnoc(slots, 5);
    NonEmptySnoc(slots, 6);
    assert slots[..7] == slots && slots[..0] == [];
  }

  /** A stream's two chunks with another stream's chunk between them, an hour and a second after the first. */
  function Overdue(): seq<Chunk> {
    [Chunk("a", "data:u" + ['\n'], 0), Chunk("b", "data:w" + ['\n'], HOUR + SECOND)]
  }

  /** The chunk in between drops the first stream, whose input tokens are then never accounted for. */
  lemma {:induction false} OverdueStreamLosesUsage()
    ensures var j, c := ThreePayloads(), Chunk("a", "data:v", HOUR + SECOND);
            var accounted := Accounted(j, DeliverAll(j, map[], Overdue()), c);
            && Parse(j, Concat(Since(j, Overdue(), "a") + [c.body])) == (NONE.(input := 5, output := 7), true)
            && accounted.Some? && Parse(j, accounted.value) == (NONE.(output := 7), true)
  {
    hide Candidates, ObjectsIn, ObjectsOf, MergeResponseUsage;
    var j, c := ThreePayloads(), Chunk("a", "data:v", HOUR + SECOND);
    var chunks := Overdue();
    OnePayload("data:u", 'u');
    OnePayload("data:v", 'v');
    OnePayload("data:w", 'w');
    PayloadUsage();
    TerminalPayloads();
    assert Candidates(j, chunks[0].body) == Candidates(j, "data:u");
    assert Candidates(j, chunks[1].body) == Candidates(j, "data:w");
    assert chunks[..1] == [chunks[0]] && chunks[..1][..0] == [] && chunks[..2] == chunks;
    OverdueEvicted(j, chunks[0], chunks[1]);
    assert Candidates(j, c.body)[0] == "v" && j.decodeTerminal("v").Some?;
    assert Terminal(j, c.body);
    assert KeptWith(j, map[], c) == ["data:v"];
    assert JoinLines(["data:v"]) == "data:v";
    assert [] + ["data:v"] == ["data:v"];
    OverdueWhole();
    MergeOne(NONE.(output := 7));
  }

  lemma {:induction false} TerminalPayloads()
    ensures EndsStream(TerminalPayload("1", "", "", "", [], "", "", []))
  {
    TrimKeeps("1");
  }

  lemma {:induction false} OverdueEvicted(j: Json, a: Chunk, b: Chunk)
    requires a.key != b.key && b.at - a.at > TTL
    requires Objects(j, a.body) != [] && Objects(j, b.body) == [] && !Terminal(j, a.body) && !Terminal(j, b.body)
    ensures DeliverAll(j, map[], [a, b]) == map[]
    ensures Since(j, [a, b], a.key) == [a.body]
  {
    hide Objects, Terminal;
    assert [a, b][..1] == [a] && [a][..0] == [];
    assert DeliverAll(j, map[], [a]) == Deliver(j, DeliverAll(j, map[], []), a);
    assert DeliverAll(j, map[], [a, b]) == Deliver(j, DeliverAll(j, map[], [a]), b);
    assert Since(j, [a], a.key) == Since(j, [], a.key) + [a.body];
  }

  lemma {:induction false} MergeOne(u: ResponseUsage)
    requires Below(NONE, u)
    ensures MergeAll([u]) == u
  {
    assert [u][..0] == [];
    MergeAllNone();
    assert MergeAll([u]) == MergeResponseUsage(MergeAll([]), u);
  }

  lemma {:induction false} NeverDocuments()
    ensures DataLinesAreNotJson(ThreePayloads())
    ensures forall s :: EventText(ThreePayloads(), s)
  {
  }

  lemma {:induction false} OverdueWhole()
    ensures Parse(ThreePayloads(), Concat(["data:u" + ['\n'], "data:v"])) == (NONE.(input := 5, output := 7), true)
  {
    hide Candidates, ObjectsIn, ObjectsOf, EventText, CleanCuts, DataLinesAreNotJson, MergeAll;
    var j := ThreePayloads();
    var a, b := "data:u" + ['\n'], "data:v";
    OnePayload("data:u", 'u');
    OnePayload("data:v", 'v');
    PayloadUsage();
    assert [a, b][1..] == [b] && [b][1..] == [];
    LineEndsAreClean([a, b]);
    NeverDocuments();
    WholeTextParsesChunks(j, [a, b]);
    var u, v := NONE.(input := 5), NONE.(output := 7);
    assert AllObjects(j, [b]) == Objects(j, b) + AllObjects(j, []);
    assert AllObjects(j, [a, b]) == [u, v];
    MergeOne(u);
    MergeAllSnoc([u], v);
    assert [u] + [v] == [u, v];
  }

  lemma {:induction false} NotCleanCut()
    ensures !CleanCut("dat", "a:u")
  {
    hide LineCandidates, Candidates, CleanCut, EventText, Objects;
    var j := ThreePayloads();
    NeverDocuments();
    NotDataLine("dat");
    NotDataLine("a:u");
    OnePayload("data:u", 'u');
    EventTextCandidates(j, "dat");
    EventTextCandidates(j, "a:u");
    EventTextCandidates(j, "data:u");
    CutKeepsCandidates("dat", "a:u");
    assert "dat" + "a:u" == "data:u";
  }

  /** A data line cut in two is found in neither chunk. */
  lemma {:induction false} CutLineLosesUsage()
    ensures var j := ThreePayloads();
            && !CleanCut("dat", "a:u")
            && AllObjects(j, ["dat", "a:u"]) == []
            && Objects(j, Concat(["dat", "a:u"])) == [NONE.(input := 5)]
  {
    hide ObjectsIn, Objects, CleanCut, AllObjects, Concat;
    var j := ThreePayloads();
    NotDataLine("dat");
    NotDataLine("a:u");
    NotCleanCut();
    TwoParts(j, "dat", "a:u");
    assert "dat" + "a:u" == "data:u";
    OnePayload("data:u", 'u');
    PayloadUsage();
  }

  lemma {:induction false} TwoParts(j: Json, a: string, b: string)
    ensures AllObjects(j, [a, b]) == Objects(j, a) + Objects(j, b)
    ensures Concat([a, b]) == a + b
  {
    hide Objects;
    assert [a, b][1..] == [b] && [b][1..] == [];
    assert AllObjects(j, [b]) == Objects(j, b) + AllObjects(j, []);
    assert Concat([b]) == b + Concat([]);
  }

  lemma {:induction false} NotDataLine(s: string)
    requires s != "" && !IsSpace(s[0]) && !IsSpace(s[|s| - 1]) && '\n' !in s && !(DATA <= s)
    ensures Candidates(ThreePayloads(), s) == [] && Objects(ThreePayloads(), s) == []
  {
    TrimKeeps(s);
    NoBreaks(s);
    SingleLine(s);
  }

  /** Two chunks of five input and seven output tokens, each one whole document, lose all of it when joined. */
  lemma {:induction false} TwoDocumentsLoseUsage()
    ensures var j := ThreePayloads().(valid := s => s == "u" || s == "v");
            && DataLinesAreNotJson(j)
            && Objects(j, "u") == [NONE.(input := 5)] && Objects(j, "v") == [NONE.(output := 7)]
            && Objects(j, JoinLines(["u", "v"])) == []
  {
    hide ObjectsIn;
    var j := ThreePayloads().(valid := s => s == "u" || s == "v");
    TrimKeeps("u");
    TrimKeeps("v");
    TrimKeeps(JoinLines(["u", "v"]));
    NoBreaks("u");
    NoBreaks("v");
    PayloadUsage();
    OneCandidate(j, "u");
    OneCandidate(j, "v");
    assert ObjectsIn(j, "u") == ObjectsIn(ThreePayloads(), "u") by { SameDecoding(j, "u"); }
    assert ObjectsIn(j, "v") == ObjectsIn(ThreePayloads(), "v") by { SameDecoding(j, "v"); }
    TwoDocumentsLost(j, "u", "v");
  }

  lemma {:induction false} SameDecoding(j: Json, candidate: string)
    requires j.decode == ThreePayloads().decode
    ensures ObjectsIn(j, candidate) == ObjectsIn(ThreePayloads(), candidate)
  {
  }

  lemma {:induction false} OneCandidate(j: Json, text: string)
    requires Candidates(j, text) == [text]
    ensures Objects(j, text) == ObjectsIn(j, text)
  {
    assert [text][..0] == [];
    assert ObjectsOf(j, [text]) == ObjectsOf(j, [text][..0]) + ObjectsIn(j, text);
  }

  // ----- Streams that report growing counts -----

  /** A chunk of one payload that reports Gemini metadata and a finish reason, which may be blank. */
  ghost predicate ReportsGemini(j: Json, body: string, g: GeminiUsage, reason: string) {
    && EventText(j, body)
    && exists c, raw :: (
         && Candidates(j, body) == [c] && !Missing(raw)
         && j.decode(c) == Some(SILENT.(metadata := g))
         && j.decodeTerminal(c) == Some(TerminalPayload("", "", raw, "", [reason], "", "", [])))
  }

  lemma {:induction false} GeminiEnds(j: Json, body: string, g: GeminiUsage, reason: string)
    requires ReportsGemini(j, body, g, reason)
    ensures Terminal(j, body) <==> Trim(reason) != ""
    ensures forall u :: u in Objects(j, body) <==> u != NONE && u == GeminiResponseUsage(g)
  {
    hide Trim, Candidates, EventText, GeminiResponseUsage;
    GoesOnExactly(j, body);
    var c, raw :| (
      && Candidates(j, body) == [c] && !Missing(raw) && j.decode(c) == Some(SILENT.(metadata := g))
      && j.decodeTerminal(c) == Some(TerminalPayload("", "", raw, "", [reason], "", "", [])));
    assert c in Candidates(j, body);
    assert Trim("") == "" by { NothingTrimmed(); }
    forall u { ObjectsMembers(j, Candidates(j, body), u); }
    assert GeminiResponseUsage(NO_GEMINI) == NONE by { NoGeminiIsNone(); }
  }

  lemma {:induction false} NothingTrimmed()
    ensures Trim("") == ""
  {
  }

  lemma {:induction false} NoGeminiIsNone()
    ensures GeminiResponseUsage(NO_GEMINI) == NONE
  {
  }

  predicate CountsGrow(gs: seq<GeminiUsage>) {
    forall i :: 0 <= i < |gs| ==>
      var g, last := gs[i], gs[|gs| - 1];
      && 0 <= g.prompt <= last.prompt && 0 <= g.output <= last.output && 0 <= g.reasoning <= last.reasoning
      && 0 <= g.total <= last.total && 0 <= g.cached <= last.cached
  }

  lemma {:induction false} GrowingObjects(j: Json, parts: seq<string>, gs: seq<GeminiUsage>, reasons: seq<string>)
    requires |parts| == |gs| == |reasons|
    requires forall i :: 0 <= i < |parts| ==> ReportsGemini(j, parts[i], gs[i], reasons[i])
    ensures forall u :: u in AllObjects(j, parts) <==> u != NONE && exists g :: g in gs && u == GeminiResponseUsage(g)
  {
    hide ReportsGemini, Objects, GeminiResponseUsage;
    if parts != [] {
      assert forall i :: 0 <= i < |parts[1..]| ==>
        parts[1..][i] == parts[i + 1] && gs[1..][i] == gs[i + 1] && reasons[1..][i] == reasons[i + 1];
      GrowingObjects(j, parts[1..], gs[1..], reasons[1..]);
      GeminiEnds(j, parts[0], gs[0], reasons[0]);
      assert gs == [gs[0]] + gs[1..];
    }
  }

  lemma {:induction false} LastIsMaximum(us: seq<ResponseUsage>, gs: seq<GeminiUsage>)
    requires gs != [] && CountsGrow(gs)
    requires forall u :: u in us <==> u != NONE && exists g :: g in gs && u == GeminiResponseUsage(g)
    ensures MergeAll(us) == GeminiResponseUsage(gs[|gs| - 1])
  {
    hide MergeAll;
    var last := GeminiResponseUsage(gs[|gs| - 1]);
    MergeAllIsMaximum(us);
    forall u | u in us
      ensures Below(u, last)
    {
      var g :| g in gs && u == GeminiResponseUsage(g);
      var i :| 0 <= i < |gs| && gs[i] == g;
    }
    assert gs[|gs| - 1] in gs;
    assert last == NONE || last in us;
    BelowAntisymmetric(MergeAll(us), last);
  }

  /** A stream whose chunks report growing counts, with a finish reason in the last one only, is accounted
      for once, at that chunk, with the last counts. */
  lemma {:induction false} GrowingCountsAccountedOnce(
    j: Json, chunks: seq<Chunk>, c: Chunk, gs: seq<GeminiUsage>, reasons: seq<string>)
    requires DataLinesAreNotJson(j) && !OverdueNow(j, chunks, c.key)
    requires var parts := Since(j, chunks, c.key) + [c.body];
             && |parts| == |gs| == |reasons| && CleanCuts(parts)
             && (forall i :: 0 <= i < |parts| ==> ReportsGemini(j, parts[i], gs[i], reasons[i]))
    requires forall i :: 0 <= i < |reasons| ==> (Trim(reasons[i]) != "" <==> i == |reasons| - 1)
    requires CountsGrow(gs) && gs[|gs| - 1] != NO_GEMINI
    ensures forall p :: p in Since(j, chunks, c.key) ==> !Terminal(j, p)
    ensures var accounted, g := Accounted(j, DeliverAll(j, map[], chunks), c), gs[|gs| - 1];
            && accounted.Some?
            && Parse(j, accounted.value) ==
               (NONE.(input := g.prompt, output := g.output, total := g.total,
                      inputCached := g.cached, outputReasoning := g.reasoning), true)
  {
    hide DataLinesAreNotJson, OverdueNow, CleanCuts, ReportsGemini, Terminal, Objects, MergeAll, Accounted, CountsGrow;
    hide Trim;
    var own := Since(j, chunks, c.key);
    var parts, n := own + [c.body], |own|;
    forall i | 0 <= i < |parts|
      ensures EventText(j, parts[i]) && (Terminal(j, parts[i]) <==> i == n)
    {
      GeminiEnds(j, parts[i], gs[i], reasons[i]);
      GeminiText(j, parts[i], gs[i], reasons[i]);
    }
    forall p | p in own
      ensures !Terminal(j, p)
    {
      var i :| 0 <= i < n && own[i] == p;
      assert parts[i] == p;
    }
    assert parts[n] == c.body;
    TerminalEndsEventStream(j, own, c.body);
    StreamRefinesWholeText(j, chunks, c);
    WholeTextParsesChunks(j, parts);
    GrowingObjects(j, parts, gs, reasons);
    LastIsMaximum(AllObjects(j, parts), gs);
    LastIsUsage(gs[n]);
    assert gs[n] in gs;
    assert GeminiResponseUsage(gs[n]) in AllObjects(j, parts);
  }

  lemma {:induction false} GeminiText(j: Json, body: string, g: GeminiUsage, reason: string)
    requires ReportsGemini(j, body, g, reason)
    ensures EventText(j, body)
  {
  }

  lemma {:induction false} LastIsUsage(g: GeminiUsage)
    requires g != NO_GEMINI
    ensures GeminiResponseUsage(g) != NONE
    ensures GeminiResponseUsage(g) ==
              NONE.(input := g.prompt, output := g.output, total := g.total,
                    inputCached := g.cached, outputReasoning := g.reasoning)
  {
  }

  /** Another stream's state is dropped exactly when it is idle for more than an hour, to the nanosecond. */
  lemma {:induction false} DroppedAfterAnHour(j: Json, table: Table, c: Chunk, k: string)
    requires k in table && k != c.key
    ensures k !in Deliver(j, table, c) <==> c.at - table[k].updatedAt > 3_600_000_000_000
    ensures k in Deliver(j, table, c) ==> Deliver(j, table, c)[k] == table[k]
  {
    hide Objects, Terminal;
  }
}
