/** Usage counters found in response bodies: candidate texts, payload objects and their merge. */
module Convert {
  import opened Base
  import opened Text
  import opened Ledger
  import Host

  datatype ResponseUsage = ResponseUsage(
    input: int64, prompt: int64, output: int64, completion: int64, total: int64, cacheRead: int64, cacheCreation: int64,
    inputCached: int64, promptCached: int64, outputReasoning: int64, completionReasoning: int64)

  datatype GeminiUsage = GeminiUsage(prompt: int64, output: int64, reasoning: int64, total: int64, cached: int64)

  const NONE := ResponseUsage(0, 0, 0, 0, 0, 0, 0, 0, 0, 0, 0)

  /** The usage objects of one decoded payload; the Gemini ones in both spellings, plain and under `response`. */
  datatype Payload = Payload(
    usage: ResponseUsage, message: ResponseUsage, response: ResponseUsage,
    metadata: GeminiUsage, metadataSnake: GeminiUsage, responseMetadata: GeminiUsage,
    responseMetadataSnake: GeminiUsage)

  /** The raw values that decide whether a payload ends a stream; an absent field is the empty text. */
  datatype TerminalPayload = TerminalPayload(
    usage: string, responseUsage: string, metadata: string, metadataSnake: string, finishReasons: seq<string>,
    responseMetadata: string, responseMetadataSnake: string, responseFinishReasons: seq<string>)

  /** JSON validity and decoding, taken as given. */
  datatype Json = Json(valid: string -> bool, decode: string -> Option<Payload>,
                       decodeTerminal: string -> Option<TerminalPayload>)

  // ----- Candidate texts -----

  const DATA := "data:"

  /** The payload text of an event-stream line, if it has one. */
  function LineCandidate(line: string): seq<string> {
    var l := Trim(line);
    if !(DATA <= l) then []
    else
      var c := Trim(l[|DATA|..]);
      if c == "" || c == "[DONE]" then [] else [c]
  }

  function CandidatesIn(lines: seq<string>): seq<string> {
    if lines == [] then [] else LineCandidate(lines[0]) + CandidatesIn(lines[1..])
  }

  function LineCandidates(text: string): seq<string> { CandidatesIn(Lines(text)) }

  /** A body is one whole JSON document, or its event-stream lines are looked at. */
  function Candidates(j: Json, body: string): seq<string> {
    var b := Trim(body);
    if b == "" then [] else if j.valid(b) then [b] else LineCandidates(b)
  }

  method ResponseJSONCandidates(j: Json, body: string) returns (out: seq<string>)
    ensures out == Candidates(j, body)
  {
    hide Trim, Lines, LineCandidate, CandidatesIn;
    var b := Trim(body);
    if |b| == 0 {
      return [];
    }
    if j.valid(b) {
      return [b];
    }
    var lines := Lines(b);
    out := [];
    CandidatesSnoc(lines, 0);
    for i := 0 to |lines|
      invariant out == CandidatesIn(lines[..i])
    {
      CandidatesSnoc(lines, i);
      var found := CandidateOfLine(lines[i]);
      out := out + found;
    }
    assert lines[..|lines|] == lines;
  }

  method CandidateOfLine(line: string) returns (r: seq<string>)
    ensures r == LineCandidate(line)
  {
    hide Trim;
    var l := Trim(line);
    if !(DATA <= l) {
      return [];
    }
    var candidate := Trim(l[|DATA|..]);
    if |candidate| > 0 && candidate != "[DONE]" {
      return [candidate];
    }
    return [];
  }

  lemma {:induction false} CandidatesSnoc(lines: seq<string>, i: nat)
    ensures CandidatesIn(lines[..0]) == []
    ensures i < |lines| ==> CandidatesIn(lines[..i + 1]) == CandidatesIn(lines[..i]) + LineCandidate(lines[i])
  {
    hide LineCandidate;
    if i < |lines| {
      assert lines[..i + 1] == lines[..i] + [lines[i]];
      CandidatesAppend(lines[..i], [lines[i]]);
      assert CandidatesIn([lines[i]]) == LineCandidate(lines[i]) + CandidatesIn([]);
    }
  }

  lemma {:induction false} CandidatesAppend(a: seq<string>, b: seq<string>)
    ensures CandidatesIn(a + b) == CandidatesIn(a) + CandidatesIn(b)
  {
    hide LineCandidate;
    if a == [] {
      assert a + b == b;
    } else {
      assert (a + b)[1..] == a[1..] + b;
      CandidatesAppend(a[1..], b);
    }
  }

  /** Line breaks between texts split their candidates cleanly. */
  lemma {:induction false} LineCandidatesJoin(a: string, b: string)
    ensures LineCandidates(a + ['\n'] + b) == LineCandidates(a) + LineCandidates(b)
  {
    LinesOfJoin(a, b);
    CandidatesAppend(Lines(a), Lines(b));
  }

  lemma {:induction false} BlankHasNoCandidates()
    ensures LineCandidates("") == []
  {
    assert LineCandidate("") == [];
    assert CandidatesIn([""]) == LineCandidate("") + CandidatesIn([]);
  }

  // ----- Trimming a body does not change its event-stream candidates -----

  lemma {:induction false} LeadingSpaceIgnored(w: char, s: string)
    requires IsSpace(w)
    ensures LineCandidates([w] + s) == LineCandidates(s)
  {
    hide LineCandidate, IsSpace;
    assert ([w] + s)[1..] == s;
    var rest := Lines(s);
    if w == '\n' {
      BlankHasNoCandidates();
      assert Lines([w] + s) == [""] + rest;
      CandidatesAppend([""], rest);
      assert LineCandidates("") == CandidatesIn([""]);
    } else {
      SpaceBefore(w, rest[0]);
      assert Lines([w] + s) == [[w] + rest[0]] + rest[1..];
    }
  }

  lemma {:induction false} SpaceBefore(w: char, line: string)
    requires IsSpace(w)
    ensures LineCandidate([w] + line) == LineCandidate(line)
    ensures LineCandidate(line + [w]) == LineCandidate(line)
  {
    TrimIgnoresEnds(line, w);
  }

  lemma {:induction false} TrailingSpaceIgnored(s: string, w: char)
    requires IsSpace(w)
    ensures LineCandidates(s + [w]) == LineCandidates(s)
  {
    hide LineCandidate, IsSpace;
    if w == '\n' {
      LineCandidatesJoin(s, "");
      BlankHasNoCandidates();
      assert s + ['\n'] + "" == s + [w];
    } else {
      LinesOfAppend(s, w);
      var lines := Lines(s);
      var n := |lines| - 1;
      assert lines == lines[..n] + [lines[n]];
      CandidatesAppend(lines[..n], [lines[n]]);
      CandidatesAppend(lines[..n], [lines[n] + [w]]);
      SpaceBefore(w, lines[n]);
      SingleLine(lines[n]);
      SingleLine(lines[n] + [w]);
    }
  }

  lemma {:induction false} SingleLine(line: string)
    ensures CandidatesIn([line]) == LineCandidate(line)
  {
    hide LineCandidate;
    assert CandidatesIn([line]) == LineCandidate(line) + CandidatesIn([]);
  }

  lemma {:induction false} TrimLeftKeepsCandidates(s: string)
    ensures LineCandidates(TrimLeft(s)) == LineCandidates(s)
  {
    hide LineCandidates;
    if s != [] && IsSpace(s[0]) {
      TrimLeftKeepsCandidates(s[1..]);
      assert s == [s[0]] + s[1..];
      LeadingSpaceIgnored(s[0], s[1..]);
    }
  }

  lemma {:induction false} TrimRightKeepsCandidates(s: string)
    ensures LineCandidates(TrimRight(s)) == LineCandidates(s)
  {
    hide LineCandidates;
    if s != [] && IsSpace(s[|s| - 1]) {
      TrimRightKeepsCandidates(s[..|s| - 1]);
      assert s == s[..|s| - 1] + [s[|s| - 1]];
      TrailingSpaceIgnored(s[..|s| - 1], s[|s| - 1]);
    }
  }

  /** Event-stream text: not one whole JSON document. */
  predicate EventText(j: Json, body: string) { !j.valid(Trim(body)) }

  lemma {:induction false} EventTextCandidates(j: Json, body: string)
    requires EventText(j, body)
    ensures Candidates(j, body) == LineCandidates(body)
  {
    hide LineCandidates, TrimLeft, TrimRight;
    TrimLeftKeepsCandidates(body);
    TrimRightKeepsCandidates(TrimLeft(body));
    BlankHasNoCandidates();
  }

  /** Text with a line that starts with `data:` is not valid JSON. */
  ghost predicate DataLinesAreNotJson(j: Json) {
    forall s, i :: 0 <= i < |Lines(s)| && DATA <= Trim(Lines(s)[i]) ==> !j.valid(s)
  }

  lemma {:induction false} CandidateNeedsDataLine(lines: seq<string>) returns (i: nat)
    requires CandidatesIn(lines) != []
    ensures i < |lines| && DATA <= Trim(lines[i])
  {
    hide Trim;
    if LineCandidate(lines[0]) != [] {
      i := 0;
    } else {
      i := CandidateNeedsDataLine(lines[1..]);
      i := i + 1;
    }
  }

  lemma {:induction false} CandidatesMakeEventText(j: Json, body: string)
    requires DataLinesAreNotJson(j) && LineCandidates(body) != []
    ensures EventText(j, body)
  {
    hide TrimLeft, TrimRight, CandidatesIn;
    TrimLeftKeepsCandidates(body);
    TrimRightKeepsCandidates(TrimLeft(body));
    var i := CandidateNeedsDataLine(Lines(Trim(body)));
  }

  // ----- Usage objects and their merge -----

  function GeminiResponseUsage(g: GeminiUsage): ResponseUsage {
    NONE.(input := g.prompt, output := g.output, total := g.total,
          inputCached := g.cached, outputReasoning := g.reasoning)
  }

  predicate HasUsage(u: ResponseUsage) { u != NONE }

  /** The seven usage objects of a payload, in the order they are merged. */
  function Slots(p: Payload): seq<ResponseUsage> {
    [p.usage, p.message, p.response, GeminiResponseUsage(p.metadata), GeminiResponseUsage(p.metadataSnake),
     GeminiResponseUsage(p.responseMetadata), GeminiResponseUsage(p.responseMetadataSnake)]
  }

  function NonEmpty(us: seq<ResponseUsage>): seq<ResponseUsage> {
    if us == [] then []
    else NonEmpty(us[..|us| - 1]) + (if HasUsage(us[|us| - 1]) then [us[|us| - 1]] else [])
  }

  function ObjectsIn(j: Json, candidate: string): seq<ResponseUsage> {
    match j.decode(candidate)
    case None => []
    case Some(p) => NonEmpty(Slots(p))
  }

  function ObjectsOf(j: Json, candidates: seq<string>): seq<ResponseUsage> {
    if candidates == [] then []
    else ObjectsOf(j, candidates[..|candidates| - 1]) + ObjectsIn(j, candidates[|candidates| - 1])
  }

  /** All non-empty usage objects of a body. */
  function Objects(j: Json, body: string): seq<ResponseUsage> { ObjectsOf(j, Candidates(j, body)) }

  function Max64(a: int64, b: int64): int64 { if a < b then b else a }

  function MergeResponseUsage(a: ResponseUsage, b: ResponseUsage): ResponseUsage {
    ResponseUsage(
      Max64(a.input, b.input), Max64(a.prompt, b.prompt), Max64(a.output, b.output), Max64(a.completion, b.completion),
      Max64(a.total, b.total), Max64(a.cacheRead, b.cacheRead), Max64(a.cacheCreation, b.cacheCreation),
      Max64(a.inputCached, b.inputCached), Max64(a.promptCached, b.promptCached),
      Max64(a.outputReasoning, b.outputReasoning), Max64(a.completionReasoning, b.completionReasoning))
  }

  function MergeAll(us: seq<ResponseUsage>): ResponseUsage {
    if us == [] then NONE else MergeResponseUsage(MergeAll(us[..|us| - 1]), us[|us| - 1])
  }

  function Parse(j: Json, body: string): (ResponseUsage, bool) {
    (MergeAll(Objects(j, body)), Objects(j, body) != [])
  }

  method ParseResponseUsage(j: Json, body: string) returns (merged: ResponseUsage, found: bool)
    ensures (merged, found) == Parse(j, body)
  {
    hide MergeResponseUsage, MergeAll, Candidates, Slots, NonEmpty, HasUsage;
    MergeAllNone();
    merged := NONE;
    found := false;
    var candidates := ResponseJSONCandidates(j, body);
    for i := 0 to |candidates|
      invariant merged == MergeAll(ObjectsOf(j, candidates[..i]))
      invariant found == (ObjectsOf(j, candidates[..i]) != [])
    {
      ghost var before := ObjectsOf(j, candidates[..i]);
      assert candidates[..i + 1][..i] == candidates[..i];
      var decoded := j.decode(candidates[i]);
      if decoded.None? {
        assert before + [] == before;
        continue;
      }
      merged, found := MergePayload(decoded.value, merged, found, before);
    }
    assert candidates[..|candidates|] == candidates;
  }

  /** The inner loop: one payload's slots merged into what was found before. */
  method MergePayload(p: Payload, merged: ResponseUsage, found: bool, ghost before: seq<ResponseUsage>)
    returns (m: ResponseUsage, f: bool)
    requires merged == MergeAll(before) && found == (before != [])
    ensures m == MergeAll(before + NonEmpty(Slots(p))) && f == (before + NonEmpty(Slots(p)) != [])
  {
    hide MergeResponseUsage, MergeAll, Slots, HasUsage;
    m, f := merged, found;
    var slots := Slots(p);
    assert slots[..0] == [] && before + NonEmpty([]) == before;
    for k := 0 to |slots|
      invariant m == MergeAll(before + NonEmpty(slots[..k]))
      invariant f == (before + NonEmpty(slots[..k]) != [])
    {
      NonEmptySnoc(slots, k);
      ghost var so := NonEmpty(slots[..k]);
      if HasUsage(slots[k]) {
        MergeAllSnoc(before + so, slots[k]);
        assert before + (so + [slots[k]]) == before + so + [slots[k]];
        m := MergeResponseUsage(m, slots[k]);
        f := true;
      } else {
        assert so + [] == so;
      }
    }
    assert slots[..|slots|] == slots;
  }

  lemma {:induction false} MergeAllNone()
    ensures MergeAll([]) == NONE
  {
  }

  lemma {:induction false} NonEmptySnoc(us: seq<ResponseUsage>, k: nat)
    requires k < |us|
    ensures NonEmpty(us[..k + 1]) == NonEmpty(us[..k]) + (if HasUsage(us[k]) then [us[k]] else [])
  {
    hide HasUsage;
    assert us[..k + 1][..k] == us[..k];
  }

  lemma {:induction false} MergeAllSnoc(us: seq<ResponseUsage>, u: ResponseUsage)
    ensures MergeAll(us + [u]) == MergeResponseUsage(MergeAll(us), u)
  {
    hide MergeResponseUsage;
    assert (us + [u])[..|us|] == us;
  }

  // ----- The merge is the fieldwise maximum -----

  predicate Below(a: ResponseUsage, b: ResponseUsage) {
    && a.input <= b.input && a.prompt <= b.prompt && a.output <= b.output && a.completion <= b.completion
    && a.total <= b.total && a.cacheRead <= b.cacheRead && a.cacheCreation <= b.cacheCreation
    && a.inputCached <= b.inputCached && a.promptCached <= b.promptCached
    && a.outputReasoning <= b.outputReasoning && a.completionReasoning <= b.completionReasoning
  }

  /** The least usage that is at least zero and at least every given object, field by field. */
  ghost predicate IsMaximum(us: seq<ResponseUsage>, m: ResponseUsage) {
    && Below(NONE, m)
    && (forall u :: u in us ==> Below(u, m))
    && (forall b :: Below(NONE, b) && (forall u :: u in us ==> Below(u, b)) ==> Below(m, b))
  }

  lemma {:induction false} MergeBounds(a: ResponseUsage, b: ResponseUsage, c: ResponseUsage)
    ensures var m := MergeResponseUsage(a, b);
            && Below(a, m) && Below(b, m)
            && (Below(a, c) && Below(b, c) ==> Below(m, c))
            && (Below(c, a) ==> Below(c, m))
            && (Below(c, b) ==> Below(c, m))
  {
  }

  lemma {:induction false} MergeAllIsMaximum(us: seq<ResponseUsage>)
    ensures IsMaximum(us, MergeAll(us))
  {
    hide MergeResponseUsage, Below;
    if us == [] {
      assert Below(NONE, NONE) by { MergeBounds(NONE, NONE, NONE); NoneBelowItself(); }
    } else {
      var init, last := us[..|us| - 1], us[|us| - 1];
      MergeAllIsMaximum(init);
      assert us == init + [last];
      forall c {
        MergeBounds(MergeAll(init), last, c);
      }
      forall u | u in us
        ensures Below(u, MergeAll(us))
      {
        if u in init { MergeBounds(MergeAll(init), last, u); } else { MergeBounds(MergeAll(init), last, last); }
      }
      MergeBounds(MergeAll(init), last, NONE);
      assert forall u :: u in init ==> u in us;
    }
  }

  lemma {:induction false} NoneBelowItself()
    ensures Below(NONE, NONE)
  {
  }

  lemma {:induction false} BelowAntisymmetric(a: ResponseUsage, b: ResponseUsage)
    requires Below(a, b) && Below(b, a)
    ensures a == b
  {
  }

  /** What is parsed depends only on which usage objects occur, not on their order or repetition, and
      never falls as objects are added. */
  lemma {:induction false} ParsedUsageLaws(a: seq<ResponseUsage>, b: seq<ResponseUsage>)
    ensures (forall u :: u in a ==> u in b) ==> Below(MergeAll(a), MergeAll(b))
    ensures (forall u :: u in a <==> u in b) ==> MergeAll(a) == MergeAll(b)
  {
    hide Below, MergeAll;
    MergeAllIsMaximum(a);
    MergeAllIsMaximum(b);
    if forall u :: u in a <==> u in b {
      BelowAntisymmetric(MergeAll(a), MergeAll(b));
    }
  }

  // ----- What is parsed, by the fields of the payloads -----

  const NO_GEMINI := GeminiUsage(0, 0, 0, 0, 0)

  predicate GeminiBelow(g: GeminiUsage, m: ResponseUsage) {
    && g.prompt <= m.input && g.output <= m.output && g.total <= m.total
    && g.cached <= m.inputCached && g.reasoning <= m.outputReasoning
  }

  /** Every counter that a payload reports anywhere lies below the usage. */
  predicate PayloadBelow(p: Payload, m: ResponseUsage) {
    && Below(p.usage, m) && Below(p.message, m) && Below(p.response, m)
    && GeminiBelow(p.metadata, m) && GeminiBelow(p.metadataSnake, m)
    && GeminiBelow(p.responseMetadata, m) && GeminiBelow(p.responseMetadataSnake, m)
  }

  /** A payload that reports nothing. */
  const SILENT := Payload(NONE, NONE, NONE, NO_GEMINI, NO_GEMINI, NO_GEMINI, NO_GEMINI)

  /** At least zero, and at least everything that the payloads of a body report. */
  ghost predicate Covers(j: Json, body: string, m: ResponseUsage) {
    Below(NONE, m) && forall c :: c in Candidates(j, body) && j.decode(c).Some? ==> PayloadBelow(j.decode(c).value, m)
  }

  lemma {:induction false} NonEmptyMembers(us: seq<ResponseUsage>, u: ResponseUsage)
    ensures u in NonEmpty(us) <==> u in us && u != NONE
  {
    if us != [] {
      var n := |us| - 1;
      assert us == us[..n] + [us[n]];
      NonEmptyMembers(us[..n], u);
    }
  }

  lemma {:induction false} ObjectsMembers(j: Json, candidates: seq<string>, u: ResponseUsage)
    ensures u in ObjectsOf(j, candidates) <==>
            u != NONE && exists c :: c in candidates && j.decode(c).Some? && u in Slots(j.decode(c).value)
  {
    hide Slots, NonEmpty;
    if candidates != [] {
      var n := |candidates| - 1;
      assert candidates == candidates[..n] + [candidates[n]];
      ObjectsMembers(j, candidates[..n], u);
      if j.decode(candidates[n]).Some? { NonEmptyMembers(Slots(j.decode(candidates[n]).value), u); }
    }
  }

  lemma {:induction false} GeminiBelowAsUsage(g: GeminiUsage, m: ResponseUsage)
    requires Below(NONE, m)
    ensures Below(GeminiResponseUsage(g), m) <==> GeminiBelow(g, m)
    ensures GeminiResponseUsage(g) == NONE <==> g == NO_GEMINI
  {
  }

  /** The seven places where a payload may report usage are all that is looked at. */
  lemma {:induction false} SlotsCover(p: Payload, m: ResponseUsage)
    requires Below(NONE, m)
    ensures (forall u :: u in Slots(p) && u != NONE ==> Below(u, m)) <==> PayloadBelow(p, m)
    ensures (exists u :: u in Slots(p) && u != NONE) <==> p != SILENT
  {
    hide Below, GeminiBelow, GeminiResponseUsage;
    GeminiBelowAsUsage(p.metadata, m);
    GeminiBelowAsUsage(p.metadataSnake, m);
    GeminiBelowAsUsage(p.responseMetadata, m);
    GeminiBelowAsUsage(p.responseMetadataSnake, m);
    var s := Slots(p);
    assert p.usage in s && p.message in s && p.response in s;
    assert s[3] in s && s[4] in s && s[5] in s && s[6] in s;
  }

  lemma {:induction false} CoversObjects(j: Json, body: string, m: ResponseUsage)
    requires Below(NONE, m)
    ensures Covers(j, body, m) <==> forall u :: u in Objects(j, body) ==> Below(u, m)
  {
    hide Below, Slots, PayloadBelow, Candidates;
    forall u { ObjectsMembers(j, Candidates(j, body), u); }
    forall c | c in Candidates(j, body) && j.decode(c).Some? { SlotsCover(j.decode(c).value, m); }
  }

  /** What is parsed from a body is the least usage that covers everything its payloads report, plain, under
      `message`, under `response` or as Gemini metadata in either spelling; and something is found exactly
      when some payload reports anything. */
  lemma {:induction false} ParseIsLeastCover(j: Json, body: string)
    ensures var (m, found) := Parse(j, body);
            && Covers(j, body, m)
            && (forall b :: Covers(j, body, b) ==> Below(m, b))
            && (found <==> exists c :: c in Candidates(j, body) && j.decode(c).Some? && j.decode(c).value != SILENT)
  {
    hide Below, MergeAll, Candidates, Slots, PayloadBelow, ObjectsOf;
    var objects := Objects(j, body);
    MergeAllIsMaximum(objects);
    CoversObjects(j, body, MergeAll(objects));
    forall b | Covers(j, body, b) { CoversObjects(j, body, b); }
    NoneBelowItself();
    forall u { ObjectsMembers(j, Candidates(j, body), u); }
    forall c | c in Candidates(j, body) && j.decode(c).Some? { SlotsCover(j.decode(c).value, NONE); }
    if objects != [] {
      var u := objects[0];
      assert u in objects;
      var c :| c in Candidates(j, body) && j.decode(c).Some? && u in Slots(j.decode(c).value);
    }
    if exists c :: c in Candidates(j, body) && j.decode(c).Some? && j.decode(c).value != SILENT {
      var c :| c in Candidates(j, body) && j.decode(c).Some? && j.decode(c).value != SILENT;
      var u :| u in Slots(j.decode(c).value) && u != NONE;
      assert u in objects;
    }
  }

  // ----- Joining chunks -----

  function AllLineCandidates(parts: seq<string>): seq<string> {
    if parts == [] then [] else LineCandidates(parts[0]) + AllLineCandidates(parts[1..])
  }

  function AllObjects(j: Json, parts: seq<string>): seq<ResponseUsage> {
    if parts == [] then [] else Objects(j, parts[0]) + AllObjects(j, parts[1..])
  }

  lemma {:induction false} JoinedLines(parts: seq<string>)
    ensures LineCandidates(JoinLines(parts)) == AllLineCandidates(parts)
  {
    hide LineCandidates;
    if parts == [] {
      BlankHasNoCandidates();
    } else if |parts| == 1 {
      assert AllLineCandidates(parts[1..]) == [];
    } else {
      LineCandidatesJoin(parts[0], JoinLines(parts[1..]));
      JoinedLines(parts[1..]);
    }
  }

  // ----- Cutting a text into chunks -----

  function FirstLine(s: string): string { Lines(s)[0] }

  function LastLine(s: string): string { Lines(s)[|Lines(s)| - 1] }

  lemma {:induction false} LinesOfConcat(a: string, b: string)
    ensures Lines(a + b) == Lines(a)[..|Lines(a)| - 1] + [LastLine(a) + FirstLine(b)] + Lines(b)[1..]
    decreases |a|
  {
    hide Lines;
    if a == [] {
      assert a + b == b;
      LinesOfNothing(b);
    } else {
      assert (a + b)[1..] == a[1..] + b && (a + b)[0] == a[0];
      LinesOfConcat(a[1..], b);
      LinesStep(a);
      LinesStep(a + b);
      HeadOfLines(a[0], Lines(a[1..]), FirstLine(b), Lines(b)[1..]);
    }
  }

  lemma {:induction false} LinesOfNothing(b: string)
    ensures Lines([]) == [[]]
    ensures Lines([])[..0] + [LastLine([]) + FirstLine(b)] + Lines(b)[1..] == Lines(b)
  {
    assert [] + FirstLine(b) == FirstLine(b);
    assert Lines([])[..0] + [FirstLine(b)] == [FirstLine(b)];
  }

  lemma {:induction false} LinesStep(s: string)
    requires s != []
    ensures var rest := Lines(s[1..]); Lines(s) == if s[0] == '\n' then [[]] + rest else [[s[0]] + rest[0]] + rest[1..]
  {
  }

  lemma {:induction false} HeadOfLines(h: char, rest: seq<string>, y: string, tail: seq<string>)
    requires |rest| >= 1
    ensures var n := |rest| - 1;
            var joined, lines, broken := rest[..n] + [rest[n] + y] + tail, [[h] + rest[0]] + rest[1..], [[]] + rest;
            && [[h] + joined[0]] + joined[1..] == lines[..n] + [lines[n] + y] + tail
            && [[]] + joined == broken[..n + 1] + [broken[n + 1] + y] + tail
  {
    var n := |rest| - 1;
    assert [[]] + (rest[..n] + [rest[n] + y] + tail) == ([[]] + rest)[..n + 1] + [rest[n] + y] + tail;
    if |rest| == 1 {
      assert [h] + (rest[0] + y) == ([h] + rest[0]) + y;
    }
  }

  /** The line that two texts share when joined has the candidates of its two pieces. */
  predicate CleanCut(a: string, b: string) {
    LineCandidate(LastLine(a) + FirstLine(b)) == LineCandidate(LastLine(a)) + LineCandidate(FirstLine(b))
  }

  lemma {:induction false} CancelAround<T>(p: seq<T>, u: seq<T>, v: seq<T>, q: seq<T>)
    ensures p + u + q == p + v + q <==> u == v
  {
    if p + u + q == p + v + q {
      assert u == (p + u + q)[|p|..|p + u + q| - |q|];
      assert v == (p + v + q)[|p|..|p + v + q| - |q|];
    }
  }

  lemma {:induction false} CandidatesAround(p: seq<string>, line: string, q: seq<string>)
    ensures CandidatesIn(p + [line] + q) == CandidatesIn(p) + LineCandidate(line) + CandidatesIn(q)
  {
    hide LineCandidate, CandidatesIn;
    CandidatesAppend(p + [line], q);
    CandidatesAppend(p, [line]);
    SingleLine(line);
  }

  /** A text cut in two has the candidates of its pieces exactly when the line cut has those of its own. */
  lemma {:induction false} CutKeepsCandidates(a: string, b: string)
    ensures LineCandidates(a + b) == LineCandidates(a) + LineCandidates(b) <==> CleanCut(a, b)
  {
    hide LineCandidate, Lines, CandidatesIn;
    var la, lb := Lines(a), Lines(b);
    var init, x, y, rest := la[..|la| - 1], LastLine(a), FirstLine(b), lb[1..];
    LinesOfConcat(a, b);
    CandidatesAround(init, x + y, rest);
    CandidatesAround(init, x, []);
    CandidatesAround([], y, rest);
    assert la == init + [x] + [] && lb == [] + [y] + rest;
    NoCandidates();
    var p, q, u, v := CandidatesIn(init), CandidatesIn(rest), LineCandidate(x), LineCandidate(y);
    assert (p + u + []) + ([] + v + q) == p + (u + v) + q;
    CancelAround(p, LineCandidate(x + y), u + v, q);
  }

  lemma {:induction false} NoCandidates()
    ensures CandidatesIn([]) == []
  {
  }

  /** Every part is cut cleanly from the text that follows it. */
  predicate CleanCuts(parts: seq<string>) {
    parts == [] || (CleanCut(parts[0], Concat(parts[1..])) && CleanCuts(parts[1..]))
  }

  predicate LineAligned(s: string) { s == "" || s[|s| - 1] == '\n' }

  /** Every part but the last ends a line. */
  ghost predicate CutAtLines(parts: seq<string>) { forall i :: 0 <= i < |parts| - 1 ==> LineAligned(parts[i]) }

  lemma {:induction false} AlignedEnd(s: string)
    requires LineAligned(s)
    ensures LastLine(s) == ""
  {
    if s != [] {
      AlignedEnd(s[1..]);
      if |s| == 1 { assert s[1..] == []; }
    }
  }

  lemma {:induction false} AlignedCut(a: string, b: string)
    requires LineAligned(a) || b == ""
    ensures CleanCut(a, b)
  {
    hide LineCandidate;
    assert LineCandidate("") == [] by { BlankLine(); }
    if LineAligned(a) {
      AlignedEnd(a);
      assert "" + FirstLine(b) == FirstLine(b);
      assert [] + LineCandidate(FirstLine(b)) == LineCandidate(FirstLine(b));
    } else {
      assert FirstLine(b) == "" && LastLine(a) + "" == LastLine(a);
    }
  }

  lemma {:induction false} BlankLine()
    ensures LineCandidate("") == []
  {
  }

  /** Chunks that end at line ends are cut cleanly. */
  lemma {:induction false} LineEndsAreClean(parts: seq<string>)
    requires CutAtLines(parts)
    ensures CleanCuts(parts)
  {
    hide CleanCut;
    if parts != [] {
      assert forall i :: 0 <= i < |parts[1..]| ==> parts[1..][i] == parts[i + 1];
      LineEndsAreClean(parts[1..]);
      if |parts| == 1 { assert parts[1..] == []; } else { assert LineAligned(parts[0]); }
      AlignedCut(parts[0], Concat(parts[1..]));
    }
  }

  lemma {:induction false} ConcatenatedLines(parts: seq<string>)
    requires CleanCuts(parts)
    ensures LineCandidates(Concat(parts)) == AllLineCandidates(parts)
  {
    hide LineCandidates, CleanCut;
    BlankHasNoCandidates();
    if parts != [] {
      ConcatenatedLines(parts[1..]);
      CutKeepsCandidates(parts[0], Concat(parts[1..]));
    }
  }

  lemma {:induction false} ObjectsOfAppend(j: Json, a: seq<string>, b: seq<string>)
    ensures ObjectsOf(j, a + b) == ObjectsOf(j, a) + ObjectsOf(j, b)
  {
    hide ObjectsIn;
    if b == [] {
      assert a + b == a;
    } else {
      assert (a + b)[..|a + b| - 1] == a + b[..|b| - 1];
      ObjectsOfAppend(j, a, b[..|b| - 1]);
    }
  }

  lemma {:induction false} AllObjectsAreLines(j: Json, parts: seq<string>)
    requires forall i :: 0 <= i < |parts| ==> EventText(j, parts[i])
    ensures AllObjects(j, parts) == ObjectsOf(j, AllLineCandidates(parts))
  {
    hide LineCandidates, Candidates, EventText, ObjectsIn;
    if parts != [] {
      assert forall i :: 0 <= i < |parts[1..]| ==> parts[1..][i] == parts[i + 1];
      AllObjectsAreLines(j, parts[1..]);
      EventTextCandidates(j, parts[0]);
      ObjectsOfAppend(j, LineCandidates(parts[0]), AllLineCandidates(parts[1..]));
    }
  }

  /** The candidates of the newline-join of event-stream chunks are those of the chunks, one after
      another, so parsing the join merges the chunks' own objects. */
  lemma {:induction false} JoinParsesChunks(j: Json, parts: seq<string>)
    requires DataLinesAreNotJson(j) && forall i :: 0 <= i < |parts| ==> EventText(j, parts[i])
    requires AllLineCandidates(parts) != []
    ensures Candidates(j, JoinLines(parts)) == AllLineCandidates(parts)
    ensures Objects(j, JoinLines(parts)) == AllObjects(j, parts)
  {
    hide LineCandidates, Candidates, EventText, ObjectsOf, DataLinesAreNotJson;
    JoinedLines(parts);
    CandidatesMakeEventText(j, JoinLines(parts));
    EventTextCandidates(j, JoinLines(parts));
    AllObjectsAreLines(j, parts);
  }

  /** The parts that are not one whole JSON document. */
  function EventParts(j: Json, parts: seq<string>): seq<string> {
    if parts == [] then []
    else (if EventText(j, parts[0]) then [parts[0]] else []) + EventParts(j, parts[1..])
  }

  lemma {:induction false} DocumentsHaveNoDataLines(j: Json, body: string)
    requires DataLinesAreNotJson(j) && !EventText(j, body)
    ensures LineCandidates(body) == []
  {
    if LineCandidates(body) != [] { CandidatesMakeEventText(j, body); }
  }

  /** No part that is one whole JSON document carries usage. */
  ghost predicate UsageInEvents(j: Json, parts: seq<string>) {
    forall p :: p in parts ==> EventText(j, p) || Objects(j, p) == []
  }

  lemma {:induction false} EventPartsOnly(j: Json, parts: seq<string>)
    requires DataLinesAreNotJson(j)
    ensures AllLineCandidates(parts) == AllLineCandidates(EventParts(j, parts))
    ensures forall p :: p in EventParts(j, parts) ==> EventText(j, p)
    ensures |AllObjects(j, EventParts(j, parts))| <= |AllObjects(j, parts)|
    ensures |AllObjects(j, EventParts(j, parts))| == |AllObjects(j, parts)| <==> UsageInEvents(j, parts)
    ensures UsageInEvents(j, parts) ==> AllObjects(j, EventParts(j, parts)) == AllObjects(j, parts)
  {
    hide LineCandidates, EventText, Objects, DataLinesAreNotJson;
    if parts != [] {
      var p, rest := parts[0], EventParts(j, parts[1..]);
      EventPartsOnly(j, parts[1..]);
      if EventText(j, p) {
        assert ([p] + rest)[1..] == rest;
      } else {
        DocumentsHaveNoDataLines(j, p);
        assert [] + rest == rest;
      }
    }
  }

  /** The limit of the join: parts that are whole JSON documents drop out of it, so its usage is that of
      the parts exactly when no such document among them carries usage. */
  lemma {:induction false} JoinLosesDocuments(j: Json, parts: seq<string>)
    requires DataLinesAreNotJson(j) && EventText(j, JoinLines(parts))
    ensures Objects(j, JoinLines(parts)) == AllObjects(j, EventParts(j, parts))
    ensures Objects(j, JoinLines(parts)) == AllObjects(j, parts) <==> UsageInEvents(j, parts)
  {
    hide LineCandidates, Candidates, EventText, ObjectsOf, DataLinesAreNotJson, EventParts, UsageInEvents;
    JoinedLines(parts);
    EventTextCandidates(j, JoinLines(parts));
    EventPartsOnly(j, parts);
    AllObjectsAreLines(j, EventParts(j, parts));
  }

  /** Two whole documents whose join is not one lose all their usage. */
  lemma {:induction false} TwoDocumentsLost(j: Json, a: string, b: string)
    requires DataLinesAreNotJson(j) && !EventText(j, a) && !EventText(j, b) && EventText(j, JoinLines([a, b]))
    ensures Objects(j, JoinLines([a, b])) == []
  {
    hide EventText, Objects, DataLinesAreNotJson, JoinLines;
    JoinLosesDocuments(j, [a, b]);
    assert [a, b][1..] == [b] && [b][1..] == [];
    assert EventParts(j, [b]) == [] + EventParts(j, []);
  }

  /** Parsing the concatenation of cleanly cut chunks, which is the stream's own text, finds their usage
      under the same condition. */
  lemma {:induction false} WholeTextParsesChunks(j: Json, parts: seq<string>)
    requires DataLinesAreNotJson(j) && CleanCuts(parts) && EventText(j, Concat(parts))
    ensures Objects(j, Concat(parts)) == AllObjects(j, parts) <==> UsageInEvents(j, parts)
  {
    hide LineCandidates, Candidates, EventText, ObjectsOf, DataLinesAreNotJson, EventParts, CleanCuts, UsageInEvents;
    ConcatenatedLines(parts);
    EventTextCandidates(j, Concat(parts));
    EventPartsOnly(j, parts);
    AllObjectsAreLines(j, EventParts(j, parts));
  }

  /** The chunks that carry usage. */
  function WithUsage(j: Json, parts: seq<string>): seq<string> {
    if parts == [] then []
    else (if Objects(j, parts[0]) != [] then [parts[0]] else []) + WithUsage(j, parts[1..])
  }

  lemma {:induction false} DroppedChunksChangeNothing(j: Json, parts: seq<string>)
    ensures AllObjects(j, WithUsage(j, parts)) == AllObjects(j, parts)
    ensures WithUsage(j, parts) != [] <==> AllObjects(j, parts) != []
    ensures forall p :: p in WithUsage(j, parts) ==> p in parts
  {
    hide Objects;
    if parts != [] {
      DroppedChunksChangeNothing(j, parts[1..]);
      var rest := WithUsage(j, parts[1..]);
      if Objects(j, parts[0]) != [] {
        assert ([parts[0]] + rest)[1..] == rest;
      } else {
        assert [] + rest == rest;
      }
    }
  }

  /** Some of the chunks that carry usage: the join of them finds just theirs. */
  lemma {:induction false} JoinOfKept(j: Json, kept: seq<string>)
    requires DataLinesAreNotJson(j) && kept != []
    requires forall p :: p in kept ==> EventText(j, p) && Objects(j, p) != []
    ensures Objects(j, JoinLines(kept)) == AllObjects(j, kept) != []
  {
    hide LineCandidates, Candidates, EventText, DataLinesAreNotJson, Objects;
    assert forall i :: 0 <= i < |kept| ==> kept[i] in kept;
    assert Objects(j, kept[0]) != [];
    AllObjectsAreLines(j, kept);
    JoinParsesChunks(j, kept);
  }

  lemma {:induction false} KeptCarryUsage(j: Json, parts: seq<string>)
    ensures forall p :: p in WithUsage(j, parts) ==> p in parts && Objects(j, p) != []
  {
    hide Objects;
    if parts != [] { KeptCarryUsage(j, parts[1..]); }
  }

  /** Accounting a stream by its kept chunks finds exactly what its whole text contains. */
  lemma {:induction false} KeptChunksSuffice(j: Json, parts: seq<string>)
    requires DataLinesAreNotJson(j) && CleanCuts(parts) && EventText(j, Concat(parts)) && UsageInEvents(j, parts)
    requires WithUsage(j, parts) != []
    ensures Objects(j, JoinLines(WithUsage(j, parts))) == Objects(j, Concat(parts))
    ensures Parse(j, JoinLines(WithUsage(j, parts))) == Parse(j, Concat(parts))
  {
    hide EventText, DataLinesAreNotJson, CleanCuts, Objects;
    KeptCarryUsage(j, parts);
    DroppedChunksChangeNothing(j, parts);
    JoinOfKept(j, WithUsage(j, parts));
    WholeTextParsesChunks(j, parts);
  }

  lemma {:induction false} ObjectsOfChunks(j: Json, a: seq<string>, b: seq<string>)
    requires forall p :: p in a ==> p in b
    ensures forall u :: u in AllObjects(j, a) ==> u in AllObjects(j, b)
  {
    hide Objects;
    if a != [] {
      ObjectsOfChunks(j, a[1..], b);
      assert a[0] in a;
      ChunkObjects(j, b, a[0]);
    }
  }

  lemma {:induction false} ChunkObjects(j: Json, parts: seq<string>, p: string)
    requires p in parts
    ensures forall u :: u in Objects(j, p) ==> u in AllObjects(j, parts)
  {
    hide Objects;
    if p != parts[0] { ChunkObjects(j, parts[1..], p); }
  }

  /** What is parsed from joined chunks never falls as chunks are added, and does not depend on their order
      or repetition. */
  lemma {:induction false} ParsedChunksLaws(j: Json, a: seq<string>, b: seq<string>)
    requires DataLinesAreNotJson(j) && EventText(j, JoinLines(a)) && EventText(j, JoinLines(b))
    requires UsageInEvents(j, b) && forall p :: p in a ==> p in b
    ensures Below(Parse(j, JoinLines(a)).0, Parse(j, JoinLines(b)).0)
    ensures (forall p :: p in b ==> p in a) ==> Parse(j, JoinLines(a)) == Parse(j, JoinLines(b))
  {
    hide DataLinesAreNotJson, EventText, Objects, MergeAll, Below, JoinLines;
    JoinLosesDocuments(j, a);
    JoinLosesDocuments(j, b);
    ObjectsOfChunks(j, a, b);
    var oa, ob := AllObjects(j, a), AllObjects(j, b);
    ParsedUsageLaws(oa, ob);
    if forall p :: p in b ==> p in a {
      ObjectsOfChunks(j, b, a);
      if oa != [] { assert oa[0] in ob; }
      if ob != [] { assert ob[0] in oa; }
    }
  }

  // ----- Terminal chunks -----

  predicate HasJSONValue(raw: string) { Trim(raw) != "" && Trim(raw) != "null" }

  predicate HasFinishReason(reasons: seq<string>) { exists i :: 0 <= i < |reasons| && Trim(reasons[i]) != "" }

  predicate EndsStream(p: TerminalPayload) {
    || HasJSONValue(p.usage) || HasJSONValue(p.responseUsage)
    || ((HasJSONValue(p.metadata) || HasJSONValue(p.metadataSnake)) && HasFinishReason(p.finishReasons))
    || ((HasJSONValue(p.responseMetadata) || HasJSONValue(p.responseMetadataSnake))
          && HasFinishReason(p.responseFinishReasons))
  }

  predicate Terminal(j: Json, body: string) {
    exists i :: 0 <= i < |Candidates(j, body)| && j.decodeTerminal(Candidates(j, body)[i]).Some?
      && EndsStream(j.decodeTerminal(Candidates(j, body)[i]).value)
  }

  /** Absent or null. */
  predicate Missing(raw: string) { Trim(raw) == "" || Trim(raw) == "null" }

  ghost predicate NoReason(reasons: seq<string>) { forall reason :: reason in reasons ==> Trim(reason) == "" }

  /** A body goes on exactly when none of its payloads has a usage value, at the top or under `response`, and
      Gemini metadata comes with a finish reason on the same level in none. */
  lemma {:induction false} GoesOnExactly(j: Json, body: string)
    ensures !Terminal(j, body) <==>
            forall c :: c in Candidates(j, body) && j.decodeTerminal(c).Some? ==>
              var p := j.decodeTerminal(c).value;
              && Missing(p.usage) && Missing(p.responseUsage)
              && (NoReason(p.finishReasons) || (Missing(p.metadata) && Missing(p.metadataSnake)))
              && (NoReason(p.responseFinishReasons)
                    || (Missing(p.responseMetadata) && Missing(p.responseMetadataSnake)))
  {
    hide Candidates, Trim;
    forall c | c in Candidates(j, body) && j.decodeTerminal(c).Some?
    {
      PayloadEnds(j.decodeTerminal(c).value);
    }
  }

  lemma {:induction false} PayloadEnds(p: TerminalPayload)
    ensures !EndsStream(p) <==>
            && Missing(p.usage) && Missing(p.responseUsage)
            && (NoReason(p.finishReasons) || (Missing(p.metadata) && Missing(p.metadataSnake)))
            && (NoReason(p.responseFinishReasons) || (Missing(p.responseMetadata) && Missing(p.responseMetadataSnake)))
  {
    hide Trim;
    assert NoReason(p.finishReasons) <==> !HasFinishReason(p.finishReasons);
    assert NoReason(p.responseFinishReasons) <==> !HasFinishReason(p.responseFinishReasons);
  }

  method HasTerminalStreamUsage(j: Json, body: string) returns (terminal: bool)
    ensures terminal == Terminal(j, body)
  {
    hide Candidates, EndsStream;
    var candidates := ResponseJSONCandidates(j, body);
    for i := 0 to |candidates|
      invariant forall k :: 0 <= k < i ==>
        !(j.decodeTerminal(candidates[k]).Some? && EndsStream(j.decodeTerminal(candidates[k]).value))
    {
      var payload := j.decodeTerminal(candidates[i]);
      if payload.Some? && EndsStream(payload.value) {
        return true;
      }
    }
    return false;
  }

  // ----- Events -----

  function OrElse(a: int64, b: int64): int64 { if a == 0 then b else a }

  function CountersOf(u: ResponseUsage): Tokens {
    var input, output := OrElse(u.input, u.prompt), OrElse(u.output, u.completion);
    var cached, reasoning := OrElse(u.inputCached, u.promptCached), OrElse(u.outputReasoning, u.completionReasoning);
    Tokens(input, output, reasoning, cached, u.cacheRead, u.cacheCreation,
           OrElse(u.total, Wrap64(input + output + reasoning + u.cacheRead + u.cacheCreation)))
  }

  function FromInterceptedResponse(
    j: Json, body: string, headers: Host.Headers, keyHash: string, provider: string, model: string,
    statusCode: int, stream: bool, now: Instant): Option<UsageEvent>
  {
    var (usage, found) := Parse(j, body);
    if !found then None
    else Some(UsageEvent(Host.RequestID(headers), Trim(keyHash), now, Trim(provider), Trim(model), statusCode, false,
                         CountersOf(usage), stream))
  }

  function FromCPA(record: Host.UsageRecord): UsageEvent {
    UsageEvent(Host.RequestID(record.responseHeaders), Trim(record.apiKey), record.requestedAt, Trim(record.provider),
               Trim(record.model),
               if record.failed then record.failureStatus else 0, record.failed, FillTotal(record.tokens), false)
  }

  /** Whatever a response claims, interception never records a negative counter, but for a filled-in
      total whose parts wrap to one. */
  lemma {:induction false} InterceptedCountersNotNegative(j: Json, body: string)
    ensures var u := Parse(j, body).0;
            var t := CountersOf(u);
            && t.input >= 0 && t.output >= 0 && t.reasoning >= 0 && t.cached >= 0 && t.cacheRead >= 0
            && t.cacheCreation >= 0
            && (t.total < 0 <==>
                 u.total == 0 && (t.input + t.output + t.reasoning + t.cacheRead + t.cacheCreation) % TWO_64 >= TWO_63)
  {
    hide Objects, MergeAll;
    MergeAllIsMaximum(Objects(j, body));
    var t := CountersOf(Parse(j, body).0);
    WrapsNegative(t.input + t.output + t.reasoning + t.cacheRead + t.cacheCreation);
  }

  lemma {:induction false} WrapsNegative(x: int)
    ensures Wrap64(x) < 0 <==> x % TWO_64 >= TWO_63
  {
    var q := x / TWO_64;
    assert x == TWO_64 * q + x % TWO_64;
    if x % TWO_64 < TWO_63 {
      assert (x + TWO_63) / TWO_64 == q;
    } else {
      assert (x + TWO_63) / TWO_64 == q + 1;
    }
  }

  /** The forms of an event-stream line: a payload after `data:`, with or without a space; the end mark, a
      blank payload and any other line have none. */
  lemma {:induction false} LineForms(payload: string, field: string)
    requires Trim(payload) == payload != "" && payload != "[DONE]" && Trim(field) == field && !("data:" <= field)
    ensures LineCandidate("data:" + payload) == [payload] && LineCandidate("data:" + ([' '] + payload)) == [payload]
    ensures LineCandidate("data:" + "[DONE]") == [] && LineCandidate("data:" + [' '] + "[DONE]") == []
    ensures LineCandidate("data:") == [] && LineCandidate(field) == []
  {
    hide Trim;
    MarksTrimmed();
    DataLine(payload);
    DataLine("[DONE]");
    TrimIgnoresEnds(payload, ' ');
    TrimIgnoresEnds("[DONE]", ' ');
    assert "data:" + [' '] + "[DONE]" == "data:" + ([' '] + "[DONE]");
    assert "data:"[|DATA|..] == "";
  }

  lemma {:induction false} MarksTrimmed()
    ensures Trim("[DONE]") == "[DONE]" && Trim("data:") == "data:" && Trim("") == ""
  {
    TrimKeeps("[DONE]");
    TrimKeeps("data:");
  }

  lemma {:induction false} DataLine(payload: string)
    requires Trim(payload) == payload != ""
    ensures Trim("data:" + payload) == "data:" + payload
    ensures Trim("data:" + ([' '] + payload)) == "data:" + ([' '] + payload)
    ensures ("data:" + payload)[|DATA|..] == payload && ("data:" + ([' '] + payload))[|DATA|..] == [' '] + payload
  {
    hide Trim;
    TrimmedEnd(payload);
    TrimKeeps("data:" + payload);
    TrimKeeps("data:" + ([' '] + payload));
  }

  lemma {:induction false} TrimmedEnd(s: string)
    requires Trim(s) == s != ""
    ensures !IsSpace(s[|s| - 1])
  {
    TrimRightEnds(TrimLeft(s));
  }

  /** A counter reported in both spellings is taken from the first, and from the second only if the first is
      zero; a reported total is taken as it is. */
  lemma {:induction false} FirstSpellingDecides(u: ResponseUsage)
    ensures var t := CountersOf(u);
            && (u.input != 0 ==> t.input == u.input) && (u.input == 0 ==> t.input == u.prompt)
            && (u.output != 0 ==> t.output == u.output) && (u.output == 0 ==> t.output == u.completion)
            && (u.inputCached != 0 ==> t.cached == u.inputCached) && (u.inputCached == 0 ==> t.cached == u.promptCached)
            && (u.outputReasoning != 0 ==> t.reasoning == u.outputReasoning)
            && (u.outputReasoning == 0 ==> t.reasoning == u.completionReasoning)
            && t.cacheRead == u.cacheRead && t.cacheCreation == u.cacheCreation
            && (u.total != 0 ==> t.total == u.total)
  {
    hide Wrap64;
  }
}
