/** From a failed usage record to a route ban: rule choice, clamped duration and target key. */
module RouteHealth {
  import opened Base
  import opened Text
  import opened Decimal
  import opened Bans
  import opened Host

  datatype Rule = Rule(
    name: string, provider: string, statusCodes: seq<int>, strategy: string,
    fallback: int64, min: int64, max: int64)

  datatype HealthConfig = HealthConfig(enabled: bool, rules: seq<Rule>)

  /** Text formats taken as given: time.Parse on the reset-header layouts, http.ParseTime, and
      whether strconv.ParseFloat yields at least 100. */
  datatype Formats = Formats(
    parseTime: string -> Option<Instant>, parseHTTPTime: string -> Option<Instant>, atLeast100: string -> bool)

  const PRIMARY_USED := "X-Codex-Primary-Used-Percent"
  const SECONDARY_USED := "X-Codex-Secondary-Used-Percent"
  const PRIMARY_RESET := "X-Codex-Primary-Reset-At"
  const SECONDARY_RESET := "X-Codex-Secondary-Reset-At"

  // ----- Target keys -----

  /** auth:<id>:model:<model> */
  function AuthKey(authID: string, model: string): string {
    "auth:" + (authID + [':'] + ("model:" + model))
  }

  /** provider:<provider>:model:<model>:auth_type:<type> */
  function ProviderKey(provider: string, model: string, authType: string): string {
    "provider:" + (provider + [':'] + (("model:" + model + ":auth_type") + [':'] + authType))
  }

  function TargetKey(provider: string, model: string, authID: string, authType: string): string {
    if Trim(authID) != "" then AuthKey(Trim(authID), Trim(model))
    else ProviderKey(Lower(Trim(provider)), Trim(model), Lower(Trim(authType)))
  }

  function CandidateTargetKey(c: Candidate, model: string): string {
    var authType := if Get(c.attributes, "auth_type") != "" then Get(c.attributes, "auth_type")
                    else Get(c.attributes, "type");
    TargetKey(c.provider, model, c.id, authType)
  }

  predicate NoColon(s: string) { ':' !in s }

  function FirstColon(s: string): nat {
    if s == [] || s[0] == ':' then 0 else 1 + FirstColon(s[1..])
  }

  function AfterLastColon(s: string): nat {
    if s == [] || s[|s| - 1] == ':' then 0 else 1 + AfterLastColon(s[..|s| - 1])
  }

  lemma {:induction false} FirstColonAt(a: string, x: string)
    requires NoColon(a)
    ensures FirstColon(a + [':'] + x) == |a|
  {
    if a != [] {
      assert (a + [':'] + x)[1..] == a[1..] + [':'] + x;
      FirstColonAt(a[1..], x);
    }
  }

  lemma {:induction false} LastColonAt(x: string, a: string)
    requires NoColon(a)
    ensures AfterLastColon(x + [':'] + a) == |a|
  {
    if a != [] {
      var s := x + [':'] + a;
      assert s[|s| - 1] == a[|a| - 1];
      assert s[..|s| - 1] == x + [':'] + a[..|a| - 1];
      LastColonAt(x, a[..|a| - 1]);
    }
  }

  /** What precedes the first colon is determined by the whole text. */
  lemma {:induction false} FirstColonSplits(a: string, x: string, b: string, y: string)
    requires NoColon(a) && NoColon(b) && a + [':'] + x == b + [':'] + y
    ensures a == b && x == y
  {
    var s := a + [':'] + x;
    FirstColonAt(a, x);
    FirstColonAt(b, y);
    assert a == s[..|a|] && b == s[..|a|] && x == s[|a| + 1..] && y == s[|a| + 1..];
  }

  /** So is what follows the last colon. */
  lemma {:induction false} LastColonSplits(x: string, a: string, y: string, b: string)
    requires NoColon(a) && NoColon(b) && x + [':'] + a == y + [':'] + b
    ensures a == b && x == y
  {
    var s := x + [':'] + a;
    LastColonAt(x, a);
    LastColonAt(y, b);
    assert x == s[..|x|] && y == s[..|x|] && a == s[|x| + 1..] && b == s[|x| + 1..];
  }

  lemma {:induction false} PrefixCancels(p: string, x: string, y: string)
    requires p + x == p + y
    ensures x == y
  {
    assert x == (p + x)[|p|..] && y == (p + y)[|p|..];
  }

  lemma {:induction false} SuffixCancels(x: string, y: string, q: string)
    requires x + q == y + q
    ensures x == y
  {
    assert x == (x + q)[..|x + q| - |q|] && y == (y + q)[..|y + q| - |q|];
  }

  lemma {:induction false} AuthKeysInjective(id: string, model: string, id2: string, model2: string)
    requires NoColon(id) && NoColon(id2)
    ensures AuthKey(id, model) == AuthKey(id2, model2) <==> id == id2 && model == model2
  {
    hide NoColon;
    if AuthKey(id, model) == AuthKey(id2, model2) {
      var x, y := "model:" + model, "model:" + model2;
      PrefixCancels("auth:", id + [':'] + x, id2 + [':'] + y);
      FirstColonSplits(id, x, id2, y);
      PrefixCancels("model:", model, model2);
    }
  }

  lemma {:induction false} ProviderKeysInjective(p: string, m: string, a: string, p2: string, m2: string, a2: string)
    requires NoColon(p) && NoColon(p2) && NoColon(a) && NoColon(a2)
    ensures ProviderKey(p, m, a) == ProviderKey(p2, m2, a2) <==> p == p2 && m == m2 && a == a2
  {
    hide NoColon;
    if ProviderKey(p, m, a) == ProviderKey(p2, m2, a2) {
      var x, y := "model:" + m + ":auth_type", "model:" + m2 + ":auth_type";
      PrefixCancels("provider:", p + [':'] + (x + [':'] + a), p2 + [':'] + (y + [':'] + a2));
      FirstColonSplits(p, x + [':'] + a, p2, y + [':'] + a2);
      LastColonSplits(x, a, y, a2);
      SuffixCancels("model:" + m, "model:" + m2, ":auth_type");
      PrefixCancels("model:", m, m2);
    }
  }

  lemma {:induction false} KeyFamiliesDisjoint(id: string, m: string, p: string, m2: string, a: string)
    ensures AuthKey(id, m) != ProviderKey(p, m2, a)
  {
    assert AuthKey(id, m)[0] == 'a' && ProviderKey(p, m2, a)[0] == 'p';
  }

  /** What a target key stands for: an auth ID with a model, or provider, model and auth type. */
  datatype Route = ByAuth(id: string, model: string) | ByProvider(provider: string, model: string, authType: string)

  function RouteOf(provider: string, model: string, authID: string, authType: string): Route {
    if Trim(authID) != "" then ByAuth(Trim(authID), Trim(model))
    else ByProvider(Lower(Trim(provider)), Trim(model), Lower(Trim(authType)))
  }

  predicate ColonFree(r: Route) {
    match r
    case ByAuth(id, _) => NoColon(id)
    case ByProvider(provider, _, authType) => NoColon(provider) && NoColon(authType)
  }

  /** Two routes share a ban exactly when they are the same normalised route. */
  lemma {:induction false} TargetKeyInjective(
    p: string, m: string, id: string, t: string, p2: string, m2: string, id2: string, t2: string)
    requires ColonFree(RouteOf(p, m, id, t)) && ColonFree(RouteOf(p2, m2, id2, t2))
    ensures TargetKey(p, m, id, t) == TargetKey(p2, m2, id2, t2) <==> RouteOf(p, m, id, t) == RouteOf(p2, m2, id2, t2)
  {
    hide AuthKey, ProviderKey, NoColon, Trim, Lower;
    var a, b := RouteOf(p, m, id, t), RouteOf(p2, m2, id2, t2);
    match (a, b)
    case (ByAuth(i, x), ByAuth(j, y)) => AuthKeysInjective(i, x, j, y);
    case (ByProvider(q, x, u), ByProvider(r, y, v)) => ProviderKeysInjective(q, x, u, r, y, v);
    case (ByAuth(i, x), ByProvider(r, y, v)) => KeyFamiliesDisjoint(i, x, r, y, v);
    case (ByProvider(q, x, u), ByAuth(j, y)) => KeyFamiliesDisjoint(j, y, q, x, u);
  }

  // ----- When a colon makes two routes share a key -----

  const MODEL_MARK := ":model:"
  const TYPE_MARK := ":auth_type:"

  /** `mark` stands in `text` at position i. */
  predicate MarkAt(text: string, mark: string, i: nat) { i + |mark| <= |text| && text[i..i + |mark|] == mark }

  lemma {:induction false} MarkBetween(p: string, mark: string, q: string)
    ensures MarkAt(p + mark + q, mark, |p|)
    ensures (p + mark + q)[..|p|] == p && (p + mark + q)[|p| + |mark|..] == q
  {
  }

  lemma {:induction false} MarkSplits(text: string, mark: string, i: nat)
    requires MarkAt(text, mark, i)
    ensures text == text[..i] + mark + text[i + |mark|..]
  {
  }

  lemma {:induction false} AuthKeyText(id: string, model: string)
    ensures AuthKey(id, model) == "auth:" + (id + MODEL_MARK + model)
  {
    assert id + [':'] + ("model:" + model) == id + MODEL_MARK + model;
  }

  lemma {:induction false} ProviderKeyText(p: string, m: string, t: string)
    ensures ProviderKey(p, m, t) == "provider:" + (p + MODEL_MARK + (m + TYPE_MARK + t))
  {
    assert (("model:" + m + ":auth_type") + [':'] + t) == "model:" + (m + TYPE_MARK + t);
    assert p + [':'] + ("model:" + (m + TYPE_MARK + t)) == p + MODEL_MARK + (m + TYPE_MARK + t);
  }

  /** Two auth routes with IDs of different length share a key exactly when the longer ID takes over
      a part of the marker and the model of the shorter. */
  lemma {:induction false} ColonsCollide(id: string, m: string, id2: string, m2: string)
    requires |id| < |id2|
    ensures AuthKey(id, m) == AuthKey(id2, m2) <==>
            (exists x :: x != "" && id2 == id + x && MODEL_MARK + m == x + (MODEL_MARK + m2))
  {
    hide AuthKey;
    AuthKeyText(id, m);
    AuthKeyText(id2, m2);
    var tail, tail2 := MODEL_MARK + m, MODEL_MARK + m2;
    Regroup(id, MODEL_MARK, m);
    Regroup(id2, MODEL_MARK, m2);
    if AuthKey(id, m) == AuthKey(id2, m2) {
      PrefixCancels("auth:", id + tail, id2 + tail2);
      var x := id2[|id|..];
      LongerTakesOver(id, tail, id2, tail2);
      assert x != "" && id2 == id + x && tail == x + tail2;
    }
    if exists x :: x != "" && id2 == id + x && tail == x + tail2 {
      var x :| x != "" && id2 == id + x && tail == x + tail2;
      Regroup(id, x, tail2);
    }
  }

  lemma {:induction false} Regroup(a: string, b: string, c: string)
    ensures a + b + c == a + (b + c)
  {
  }

  lemma {:induction false} LongerTakesOver(a: string, p: string, b: string, q: string)
    requires |a| < |b| && a + p == b + q
    ensures b == a + b[|a|..] && p == b[|a|..] + q
  {
    var x := b[|a|..];
    assert a == (a + p)[..|a|] && b[..|a|] == (b + q)[..|a|];
    assert b == b[..|a|] + x;
    Regroup(a, x, q);
    PrefixCancels(a, p, x + q);
  }

  /** Colliding routes, one with whole markers and one where they overlap. */
  lemma {:induction false} CollidingRoutes()
    ensures AuthKey("a", "b:model:c") == AuthKey("a:model:b", "c")
    ensures AuthKey("a", "model:m") == AuthKey("a:model", "m")
  {
    assert "a" + [':'] + ("model:" + "b:model:c") == "a:model:b" + [':'] + ("model:" + "c");
    assert "a" + [':'] + ("model:" + "model:m") == "a:model" + [':'] + ("model:" + "m");
  }

  /** A part of a route as normalisation leaves it. */
  predicate Trimmed(s: string) { Trim(s) == s }

  predicate Folded(s: string) { Trimmed(s) && Lower(s) == s }

  /** The routes that normalisation yields. */
  predicate Normal(r: Route) {
    match r
    case ByAuth(id, model) => id != "" && Trimmed(id) && Trimmed(model)
    case ByProvider(provider, model, authType) => Folded(provider) && Trimmed(model) && Folded(authType)
  }

  function KeyOf(r: Route): string {
    match r
    case ByAuth(id, model) => AuthKey(id, model)
    case ByProvider(provider, model, authType) => ProviderKey(provider, model, authType)
  }

  lemma {:induction false} RoutesAreNormal(p: string, m: string, id: string, t: string)
    ensures Normal(RouteOf(p, m, id, t)) && KeyOf(RouteOf(p, m, id, t)) == TargetKey(p, m, id, t)
  {
    hide Trim, Lower, AuthKey, ProviderKey;
    TrimIdempotent(id);
    TrimIdempotent(m);
    FoldingIsFolded(p);
    FoldingIsFolded(t);
  }

  lemma {:induction false} FoldingIsFolded(s: string)
    ensures Folded(Lower(Trim(s)))
  {
    hide Trim, IsSpace, LowerChar, Lower;
    var u := Trim(s);
    var l := Lower(u);
    TrimIdempotent(s);
    forall c { LowerKeepsSpace(c); }
    assert Lower(l) == l;
    if l != "" {
      TrimmedEnds(u);
      TrimKeeps(l);
    } else {
      TrimEmpty();
    }
  }

  lemma {:induction false} LowerKeepsSpace(c: char)
    ensures LowerChar(LowerChar(c)) == LowerChar(c)
    ensures IsSpace(LowerChar(c)) <==> IsSpace(c)
  {
  }

  lemma {:induction false} TrimEmpty()
    ensures Trim("") == ""
  {
  }

  lemma {:induction false} TrimmedEnds(s: string)
    requires Trimmed(s) && s != ""
    ensures !IsSpace(s[0]) && !IsSpace(s[|s| - 1])
  {
    TrimLeftEnds(s);
    TrimRightEnds(TrimLeft(s));
    TrimRightKeepsHead(TrimLeft(s));
  }

  /** The key text after the family prefix. */
  function KeyText(r: Route): string {
    match r
    case ByAuth(id, model) => id + MODEL_MARK + model
    case ByProvider(provider, model, authType) => provider + MODEL_MARK + (model + TYPE_MARK + authType)
  }

  /** The route read off a key text by taking one place for each marker. */
  function SplitAuth(text: string, i: nat): Route
    requires MarkAt(text, MODEL_MARK, i)
  {
    ByAuth(text[..i], text[i + |MODEL_MARK|..])
  }

  function SplitProvider(text: string, i: nat, k: nat): Route
    requires MarkAt(text, MODEL_MARK, i) && MarkAt(text[i + |MODEL_MARK|..], TYPE_MARK, k)
  {
    var rest := text[i + |MODEL_MARK|..];
    ByProvider(text[..i], rest[..k], rest[k + |TYPE_MARK|..])
  }

  /** The markers can be read at no other place so that normalised parts result. For an auth route
      whose text holds the marker once this is so at once. */
  ghost predicate Alone(r: Route) {
    var text := KeyText(r);
    match r
    case ByAuth(id, _) =>
      forall i: nat :: MarkAt(text, MODEL_MARK, i) && Normal(SplitAuth(text, i)) ==> i == |id|
    case ByProvider(provider, model, _) =>
      forall i: nat, k: nat :: (
        MarkAt(text, MODEL_MARK, i) && MarkAt(text[i + |MODEL_MARK|..], TYPE_MARK, k)
          && Normal(SplitProvider(text, i, k))
        ==> i == |provider| && k == |model|)
  }

  lemma {:induction false} KeyOfText(r: Route)
    ensures KeyOf(r) == (if r.ByAuth? then "auth:" else "provider:") + KeyText(r)
  {
    match r
    case ByAuth(id, model) => AuthKeyText(id, model);
    case ByProvider(provider, model, authType) => ProviderKeyText(provider, model, authType);
  }

  /** Two routes share a key exactly when they are of one family and have one text. */
  lemma {:induction false} KeysByText(r: Route, q: Route)
    ensures KeyOf(r) == KeyOf(q) <==> r.ByAuth? == q.ByAuth? && KeyText(r) == KeyText(q)
  {
    hide KeyOf, KeyText;
    KeyOfText(r);
    KeyOfText(q);
    if KeyOf(r) == KeyOf(q) {
      assert KeyOf(r)[0] == KeyOf(q)[0];
      PrefixCancels(if r.ByAuth? then "auth:" else "provider:", KeyText(r), KeyText(q));
    }
  }

  /** Reading a route's text at its own markers gives the route back. */
  lemma {:induction false} OwnSplit(r: Route)
    ensures match r
            case ByAuth(id, _) => MarkAt(KeyText(r), MODEL_MARK, |id|) && SplitAuth(KeyText(r), |id|) == r
            case ByProvider(provider, model, _) =>
              && MarkAt(KeyText(r), MODEL_MARK, |provider|)
              && MarkAt(KeyText(r)[|provider| + |MODEL_MARK|..], TYPE_MARK, |model|)
              && SplitProvider(KeyText(r), |provider|, |model|) == r
  {
    hide MarkAt;
    match r
    case ByAuth(id, model) => MarkBetween(id, MODEL_MARK, model);
    case ByProvider(provider, model, authType) =>
      MarkBetween(provider, MODEL_MARK, model + TYPE_MARK + authType);
      MarkBetween(model, TYPE_MARK, authType);
  }

  lemma {:induction false} OtherSplit(text: string, i: nat, k: nat)
    requires MarkAt(text, MODEL_MARK, i)
    ensures KeyText(SplitAuth(text, i)) == text
    ensures MarkAt(text[i + |MODEL_MARK|..], TYPE_MARK, k) ==> KeyText(SplitProvider(text, i, k)) == text
  {
    var rest := text[i + |MODEL_MARK|..];
    MarkSplits(text, MODEL_MARK, i);
    if MarkAt(rest, TYPE_MARK, k) { MarkSplits(rest, TYPE_MARK, k); }
  }

  /** A normalised route shares its key with no other normalised route exactly when its text can be
      read in one way only. */
  lemma {:induction false} AloneOnKey(r: Route)
    requires Normal(r)
    ensures Alone(r) <==> (forall q: Route :: Normal(q) && KeyOf(q) == KeyOf(r) ==> q == r)
  {
    hide KeyOf, KeyText, Normal, MarkAt;
    if Alone(r) {
      forall q: Route | Normal(q) && KeyOf(q) == KeyOf(r)
        ensures q == r
      {
        KeysByText(q, r);
        OwnSplit(q);
        OwnSplit(r);
      }
    } else {
      var text := KeyText(r);
      var q := OtherReading(r);
      KeysByText(q, r);
    }
  }

  lemma {:induction false} OtherReading(r: Route) returns (q: Route)
    requires !Alone(r)
    ensures Normal(q) && q != r && q.ByAuth? == r.ByAuth? && KeyText(q) == KeyText(r)
  {
    hide KeyText, Normal;
    var text := KeyText(r);
    match r
    case ByAuth(id, _) =>
      var i: nat :| MarkAt(text, MODEL_MARK, i) && Normal(SplitAuth(text, i)) && i != |id|;
      q := SplitAuth(text, i);
      OtherSplit(text, i, 0);
    case ByProvider(provider, model, _) =>
      var i: nat, k: nat :|
        && MarkAt(text, MODEL_MARK, i) && MarkAt(text[i + |MODEL_MARK|..], TYPE_MARK, k)
          && Normal(SplitProvider(text, i, k))
        && !(i == |provider| && k == |model|);
      q := SplitProvider(text, i, k);
      OtherSplit(text, i, k);
  }

  lemma {:induction false} NormalIsReached(q: Route) returns (p: string, m: string, id: string, t: string)
    requires Normal(q)
    ensures RouteOf(p, m, id, t) == q && TargetKey(p, m, id, t) == KeyOf(q)
  {
    hide Trim, Lower, AuthKey, ProviderKey;
    match q
    case ByAuth(i, model) => p, m, id, t := "", model, i, "";
    case ByProvider(provider, model, authType) =>
      p, m, id, t := provider, model, "", authType;
      assert Trim("") == "" by { TrimEmpty(); }
  }

  /** A target has its ban to itself exactly when its key text can be read in one way only. */
  lemma {:induction false} TargetAlone(p: string, m: string, id: string, t: string)
    ensures Alone(RouteOf(p, m, id, t)) <==>
            (forall p2: string, m2: string, id2: string, t2: string ::
              TargetKey(p2, m2, id2, t2) == TargetKey(p, m, id, t) ==> RouteOf(p2, m2, id2, t2) == RouteOf(p, m, id, t))
  {
    hide Alone, KeyOf, Normal, RouteOf, TargetKey;
    var r := RouteOf(p, m, id, t);
    RoutesAreNormal(p, m, id, t);
    AloneOnKey(r);
    if Alone(r) {
      forall p2: string, m2: string, id2: string, t2: string | TargetKey(p2, m2, id2, t2) == TargetKey(p, m, id, t)
        ensures RouteOf(p2, m2, id2, t2) == r
      {
        RoutesAreNormal(p2, m2, id2, t2);
      }
    } else {
      var q: Route :| Normal(q) && KeyOf(q) == KeyOf(r) && q != r;
      var p2, m2, id2, t2 := NormalIsReached(q);
    }
  }

  // ----- Durations -----

  function TrimPercent(s: string): string {
    if s != [] && s[|s| - 1] == '%' then s[..|s| - 1] else s
  }

  predicate PercentFull(f: Formats, value: string) { Trim(value) != "" && f.atLeast100(Trim(value)) }

  /** Integers above 10^12 are milliseconds, other integers seconds, anything else a formatted time. */
  function ParseResetAt(f: Formats, value: string): Option<Instant> {
    var v := Trim(value);
    if v == "" then None
    else match ParseInt(v)
      case Some(unix) => Some(if unix > 1_000_000_000_000 then unix * 1_000_000 else unix * SECOND)
      case None => f.parseTime(v)
  }

  /** A reset given in seconds and the same one in milliseconds are read as one instant, for every
      second after 2001-09-09T01:46:40Z up to the limit of the seconds reading. */
  lemma {:induction false} ResetUnitsAgree(f: Formats, second: int64)
    requires 1_000_000_000 < second <= 1_000_000_000_000
    ensures ParseResetAt(f, IntText(second)) == Some(second * SECOND)
    ensures ParseResetAt(f, IntText(second * 1000)) == Some(second * SECOND)
  {
    hide ParseInt, Trim, IntText;
    DigitsSurviveTrim(second);
    DigitsSurviveTrim(second * 1000);
    ParseIntText(second);
    ParseIntText(second * 1000);
  }

  lemma {:induction false} DigitsSurviveTrim(n: nat)
    ensures Trim(IntText(n)) == IntText(n) && IntText(n) != ""
  {
    hide NatText, Trim;
    var s := NatText(n);
    assert IsDigit(s[0]) && IsDigit(s[|s| - 1]);
    TrimKeeps(s);
  }

  function CodexWeeklyResetAt(f: Formats, h: Headers): Option<Instant> { ParseResetAt(f, Get(h, SECONDARY_RESET)) }

  /** A rate-limit window reported in the headers. */
  datatype Window = Primary | Secondary

  predicate Full(f: Formats, h: Headers, w: Window) {
    PercentFull(f, TrimPercent(Get(h, if w.Primary? then PRIMARY_USED else SECONDARY_USED)))
  }

  function ResetText(h: Headers, w: Window): string { Get(h, if w.Primary? then PRIMARY_RESET else SECONDARY_RESET) }

  /** The windows that count: the full ones, or both if none is full. */
  predicate Counts(f: Formats, h: Headers, w: Window) {
    Full(f, h, w) || (!Full(f, h, Primary) && !Full(f, h, Secondary))
  }

  /** `t` is the latest reset among the windows that count. */
  ghost predicate LatestReset(f: Formats, h: Headers, t: Instant) {
    && (exists w: Window :: Counts(f, h, w) && ParseResetAt(f, ResetText(h, w)) == Some(t))
    && (forall w: Window :: Counts(f, h, w) && ParseResetAt(f, ResetText(h, w)).Some?
         ==> ParseResetAt(f, ResetText(h, w)).value <= t)
  }

  /** The header values codexResetDuration looks at, and the latest instant among some values. */
  function ResetValues(f: Formats, h: Headers): seq<string> {
    (if Counts(f, h, Primary) then [ResetText(h, Primary)] else [])
    + (if Counts(f, h, Secondary) then [ResetText(h, Secondary)] else [])
  }

  function Latest(f: Formats, values: seq<string>): Instant {
    if values == [] then ZERO_TIME
    else
      var before := Latest(f, values[..|values| - 1]);
      match ParseResetAt(f, values[|values| - 1])
      case Some(t) => Max(before, t)
      case None => before
  }

  function Until(t: Instant, now: Instant): int64 {
    if t == ZERO_TIME || t <= now then 0 else Saturate64(t - now)
  }

  method CodexResetDuration(f: Formats, h: Headers, now: Instant) returns (d: int64)
    ensures d == Until(Latest(f, ResetValues(f, h)), now)
  {
    hide ParseResetAt, PercentFull, TrimPercent, Get, Saturate64, ResetValues, Latest;
    var candidates: seq<string> := [];
    var primaryUsed := TrimPercent(Get(h, PRIMARY_USED));
    var secondaryUsed := TrimPercent(Get(h, SECONDARY_USED));
    if PercentFull(f, primaryUsed) {
      candidates := candidates + [Get(h, PRIMARY_RESET)];
    }
    if PercentFull(f, secondaryUsed) {
      candidates := candidates + [Get(h, SECONDARY_RESET)];
    }
    if |candidates| == 0 {
      candidates := candidates + [Get(h, PRIMARY_RESET), Get(h, SECONDARY_RESET)];
    }
    ValuesByCase(f, h);
    assert candidates == ResetValues(f, h);
    var latest := ZERO_TIME;
    LatestNone(f);
    for i := 0 to |candidates|
      invariant latest == Latest(f, candidates[..i])
    {
      var t := ParseResetAt(f, candidates[i]);
      LatestSnoc(f, candidates, i);
      if t.Some? && t.value > latest {
        latest := t.value;
      }
    }
    assert candidates[..|candidates|] == candidates;
    d := Until(latest, now);
  }

  lemma {:induction false} ValuesByCase(f: Formats, h: Headers)
    ensures var p, q := Get(h, PRIMARY_RESET), Get(h, SECONDARY_RESET);
            var fullP, fullQ :=
              PercentFull(f, TrimPercent(Get(h, PRIMARY_USED))), PercentFull(f, TrimPercent(Get(h, SECONDARY_USED)));
            ResetValues(f, h) == if fullP && !fullQ then [p] else if fullQ && !fullP then [q] else [p, q]
  {
    hide PercentFull, TrimPercent, Get;
  }

  lemma {:induction false} LatestNone(f: Formats)
    ensures Latest(f, []) == ZERO_TIME
  {
  }

  lemma {:induction false} LatestSnoc(f: Formats, values: seq<string>, i: nat)
    requires i < |values|
    ensures Latest(f, values[..i + 1]) ==
              match ParseResetAt(f, values[i])
              case Some(t) => Max(Latest(f, values[..i]), t)
              case None => Latest(f, values[..i])
  {
    hide ParseResetAt;
    assert values[..i + 1][..i] == values[..i];
  }

  lemma {:induction false} LatestIsReset(f: Formats, h: Headers, t: Instant)
    requires LatestReset(f, h, t) && t > ZERO_TIME
    ensures Latest(f, ResetValues(f, h)) == t
  {
    hide ParseResetAt, Full, ResetText, Latest;
    var p, q := ResetText(h, Primary), ResetText(h, Secondary);
    LatestOfOne(f, p);
    LatestOfOne(f, q);
    LatestOfTwo(f, p, q);
    assert Counts(f, h, Primary) && ParseResetAt(f, p).Some? ==> ParseResetAt(f, p).value <= t;
    assert Counts(f, h, Secondary) && ParseResetAt(f, q).Some? ==> ParseResetAt(f, q).value <= t;
    var w: Window :| Counts(f, h, w) && ParseResetAt(f, ResetText(h, w)) == Some(t);
    assert w == Primary || w == Secondary;
    assert [p] + [] == [p] && [] + [q] == [q];
    assert ResetValues(f, h) ==
      if Counts(f, h, Primary) && Counts(f, h, Secondary) then [p, q]
      else if Counts(f, h, Primary) then [p] else [q];
  }

  function ResetOr(f: Formats, value: string, before: Instant): Instant {
    match ParseResetAt(f, value)
    case Some(t) => Max(before, t)
    case None => before
  }

  lemma {:induction false} LatestOfOne(f: Formats, p: string)
    ensures Latest(f, [p]) == ResetOr(f, p, ZERO_TIME)
  {
    hide ParseResetAt;
    assert [p][..0] == [];
  }

  lemma {:induction false} LatestOfTwo(f: Formats, p: string, q: string)
    ensures Latest(f, [p, q]) == ResetOr(f, q, ResetOr(f, p, ZERO_TIME))
  {
    hide ParseResetAt;
    LatestOfOne(f, p);
    assert [p, q][..1] == [p];
  }

  /** Whole seconds, multiplied in 64 bits, or the distance to an HTTP date. */
  function RetryAfterDuration(f: Formats, h: Headers, now: Instant): int64 {
    var v := Trim(Get(h, "Retry-After"));
    if v == "" then 0
    else match ParseInt(v)
      case Some(seconds) => Wrap64(seconds * SECOND)
      case None => match f.parseHTTPTime(v) case Some(t) => Saturate64(t - now) case None => 0
  }

  function Wanted(f: Formats, rule: Rule, h: Headers, now: Instant): int64 {
    var strategy := Lower(Trim(rule.strategy));
    if strategy == "codex_reset_headers" then Until(Latest(f, ResetValues(f, h)), now)
    else if strategy == "retry_after_header" then RetryAfterDuration(f, h, now)
    else rule.fallback
  }

  /** The fallback replaces a duration that is not positive; then the bounds that are set apply. */
  function Clamped(rule: Rule, wanted: int64): int64 {
    var d := if wanted <= 0 then rule.fallback else wanted;
    var e := if rule.min > 0 && d < rule.min then rule.min else d;
    if rule.max > 0 && e > rule.max then rule.max else e
  }

  method DurationForRule(f: Formats, rule: Rule, h: Headers, now: Instant) returns (d: int64)
    ensures d == Clamped(rule, Wanted(f, rule, h, now))
    ensures 0 < rule.min <= rule.max ==> rule.min <= d <= rule.max
  {
    var strategy := Lower(Trim(rule.strategy));
    if strategy == "codex_reset_headers" {
      d := CodexResetDuration(f, h, now);
    } else if strategy == "retry_after_header" {
      d := RetryAfterDuration(f, h, now);
    } else {
      d := rule.fallback;
    }
    if d <= 0 {
      d := rule.fallback;
    }
    if rule.min > 0 && d < rule.min {
      d := rule.min;
    }
    if rule.max > 0 && d > rule.max {
      d := rule.max;
    }
  }

  // ----- Observations -----

  predicate RuleMatches(rule: Rule, provider: string, status: int) {
    && (rule.provider == "" || EqualFold(Trim(rule.provider), Trim(provider)))
    && status in rule.statusCodes
  }

  /** The rule bans the record: it matches and its duration is positive. */
  predicate Applies(f: Formats, rule: Rule, record: UsageRecord, now: Instant) {
    RuleMatches(rule, record.provider, record.failureStatus)
      && Clamped(rule, Wanted(f, rule, record.responseHeaders, now)) > 0
  }

  predicate Reportable(cfg: HealthConfig, record: UsageRecord) {
    cfg.enabled && record.failed && record.failureStatus != 0
  }

  function BanBy(f: Formats, rule: Rule, record: UsageRecord, now: Instant): RouteBan {
    RouteBan(TargetKey(record.provider, record.model, record.authID, record.authType),
             record.provider, record.model, record.authID, record.authType, rule.name, record.failureStatus,
             now, now + Clamped(rule, Wanted(f, rule, record.responseHeaders, now)),
             Get(record.responseHeaders, "X-Request-Id"))
  }

  /** The first rule that bans decides. */
  ghost predicate IsObservation(
    f: Formats, cfg: HealthConfig, record: UsageRecord, now: Instant, ban: Option<RouteBan>)
  {
    match ban
    case None => Reportable(cfg, record) ==> forall i :: 0 <= i < |cfg.rules| ==> !Applies(f, cfg.rules[i], record, now)
    case Some(b) =>
      && Reportable(cfg, record)
      && exists i :: (
           && 0 <= i < |cfg.rules| && Applies(f, cfg.rules[i], record, now) && b == BanBy(f, cfg.rules[i], record, now)
           && forall j :: 0 <= j < i ==> !Applies(f, cfg.rules[j], record, now))
  }

  method ObservationFromUsage(
    f: Formats, cfg: HealthConfig, record: UsageRecord, now: Instant) returns (ban: Option<RouteBan>)
    ensures IsObservation(f, cfg, record, now, ban)
  {
    hide RuleMatches, Wanted, Clamped, TargetKey, Get;
    if !cfg.enabled || !record.failed {
      return None;
    }
    var status := record.failureStatus;
    if status == 0 {
      return None;
    }
    for i := 0 to |cfg.rules|
      invariant forall j :: 0 <= j < i ==> !Applies(f, cfg.rules[j], record, now)
    {
      var rule := cfg.rules[i];
      if RuleMatches(rule, record.provider, status) {
        var duration := DurationForRule(f, rule, record.responseHeaders, now);
        if duration > 0 {
          return Some(RouteBan(TargetKey(record.provider, record.model, record.authID, record.authType),
                               record.provider, record.model, record.authID, record.authType, rule.name, status,
                               now, now + duration, Get(record.responseHeaders, "X-Request-Id")));
        }
      }
    }
    return None;
  }

  /** The ban by the first rule that applies. */
  function FirstBan(f: Formats, rules: seq<Rule>, record: UsageRecord, now: Instant): Option<RouteBan> {
    if rules == [] then None
    else if Applies(f, rules[0], record, now) then Some(BanBy(f, rules[0], record, now))
    else FirstBan(f, rules[1..], record, now)
  }

  function Observation(f: Formats, cfg: HealthConfig, record: UsageRecord, now: Instant): Option<RouteBan> {
    if Reportable(cfg, record) then FirstBan(f, cfg.rules, record, now) else None
  }

  /** There is one observation to make of a record. */
  lemma {:induction false} ObservationIsUnique(
    f: Formats, cfg: HealthConfig, record: UsageRecord, now: Instant, ban: Option<RouteBan>)
    requires IsObservation(f, cfg, record, now, ban)
    ensures ban == Observation(f, cfg, record, now)
  {
    hide Applies, BanBy;
    if Reportable(cfg, record) {
      if ban.None? {
        FirstBanAt(f, cfg.rules, record, now, |cfg.rules|);
      } else {
        var i :| 0 <= i < |cfg.rules| && Applies(f, cfg.rules[i], record, now)
          && ban.value == BanBy(f, cfg.rules[i], record, now)
          && forall j :: 0 <= j < i ==> !Applies(f, cfg.rules[j], record, now);
        FirstBanAt(f, cfg.rules, record, now, i);
      }
    }
  }

  lemma {:induction false} FirstBanAt(f: Formats, rules: seq<Rule>, record: UsageRecord, now: Instant, i: nat)
    requires i <= |rules| && forall j :: 0 <= j < i ==> !Applies(f, rules[j], record, now)
    requires i < |rules| ==> Applies(f, rules[i], record, now)
    ensures FirstBan(f, rules, record, now) == if i < |rules| then Some(BanBy(f, rules[i], record, now)) else None
    decreases i
  {
    hide Applies, BanBy;
    if i > 0 {
      assert forall j :: 0 <= j < |rules[1..]| ==> rules[1..][j] == rules[j + 1];
      FirstBanAt(f, rules[1..], record, now, i - 1);
    }
  }

  /** Whatever the headers say, a ban by rules with proper bounds lasts within them. */
  lemma {:induction false} BanLengthWithinBounds(
    f: Formats, cfg: HealthConfig, record: UsageRecord, now: Instant, ban: RouteBan)
    requires IsObservation(f, cfg, record, now, Some(ban))
    requires forall i :: 0 <= i < |cfg.rules| ==> 0 < cfg.rules[i].min <= cfg.rules[i].max
    ensures exists i :: 0 <= i < |cfg.rules| && cfg.rules[i].name == ban.reason
              && cfg.rules[i].min <= ban.expiresAt - now <= cfg.rules[i].max
  {
    hide Wanted, TargetKey, RuleMatches;
    var i :| 0 <= i < |cfg.rules| && Applies(f, cfg.rules[i], record, now)
      && ban == BanBy(f, cfg.rules[i], record, now);
    assert cfg.rules[i].name == ban.reason;
  }

  /** Under the reset-headers strategy a latest reset that is ahead and within the bounds is when the
      ban ends; outside the bounds the ban is as long as the nearer bound. */
  lemma {:induction false} ResetDecidesBan(f: Formats, rule: Rule, record: UsageRecord, now: Instant, t: Instant)
    requires Lower(Trim(rule.strategy)) == "codex_reset_headers" && 0 < rule.min <= rule.max
    requires LatestReset(f, record.responseHeaders, t) && t > ZERO_TIME && t > now
    ensures BanBy(f, rule, record, now).expiresAt - now ==
              if t - now < rule.min then rule.min else if t - now > rule.max then rule.max else t - now
  {
    hide LatestReset, TargetKey, ResetValues, Latest;
    LatestIsReset(f, record.responseHeaders, t);
  }

  /** A wanted duration of any size, limited to the bounds. */
  function Limited(rule: Rule, wanted: int): int {
    if wanted < rule.min then rule.min else if wanted > rule.max then rule.max else wanted
  }

  /** A Retry-After of s seconds is obeyed within the bounds exactly when s * 10^9 fits in 64 bits, or
      what is used in place of the product is at least the upper bound anyway, or there is one bound
      only. A product that does not fit wraps: to the fallback if it becomes zero or negative. */
  lemma {:induction false} RetryAfterDecides(f: Formats, rule: Rule, h: Headers, now: Instant, seconds: int64)
    requires Lower(Trim(rule.strategy)) == "retry_after_header" && 0 < rule.min <= rule.max
    requires Trim(Get(h, "Retry-After")) != "" && ParseInt(Trim(Get(h, "Retry-After"))) == Some(seconds)
    ensures var d := Clamped(rule, Wanted(f, rule, h, now));
            var wrapped := Wrap64(seconds * SECOND);
            && rule.min <= d <= rule.max
            && (seconds <= 0 && -TWO_63 <= seconds * SECOND ==> d == Limited(rule, rule.fallback))
            && (seconds > 0 ==>
                 (d == Limited(rule, seconds * SECOND) <==>
                   (|| seconds * SECOND < TWO_63
                    || (if wrapped > 0 then wrapped else rule.fallback) >= rule.max
                    || rule.min == rule.max)))
  {
    hide ParseInt, Trim, Lower;
  }

  /** The first value whose product wraps, and one that wraps to a third of a second: under bounds of
      a minute and an hour with a fallback of ten minutes neither yields the hour. */
  lemma {:induction false} RetryAfterWraps(f: Formats, rule: Rule, h: Headers, now: Instant)
    requires Lower(Trim(rule.strategy)) == "retry_after_header"
    requires rule.min == MINUTE && rule.fallback == 10 * MINUTE && rule.max == HOUR
    ensures Get(h, "Retry-After") == IntText(9_223_372_037) ==> Clamped(rule, Wanted(f, rule, h, now)) == 10 * MINUTE
    ensures Get(h, "Retry-After") == IntText(18_446_744_074) ==> Clamped(rule, Wanted(f, rule, h, now)) == MINUTE
  {
    hide ParseInt, Trim, Lower, IntText;
    DigitsSurviveTrim(9_223_372_037);
    DigitsSurviveTrim(18_446_744_074);
    ParseIntText(9_223_372_037);
    ParseIntText(18_446_744_074);
  }

  /** A Retry-After that is an HTTP date ahead ends the ban then, within the bounds; a past one, or text that
      is neither seconds nor a date, leaves the fallback. */
  lemma {:induction false} RetryAfterDateDecides(f: Formats, rule: Rule, record: UsageRecord, now: Instant)
    requires Lower(Trim(rule.strategy)) == "retry_after_header" && 0 < rule.min <= rule.max
    requires "Retry-After" in record.responseHeaders
    requires var v := Trim(record.responseHeaders["Retry-After"]); v != "" && ParseInt(v).None?
    ensures var date := f.parseHTTPTime(Trim(record.responseHeaders["Retry-After"]));
            BanBy(f, rule, record, now).expiresAt - now ==
              Limited(rule, if date.Some? && date.value > now then date.value - now else rule.fallback)
  {
    hide ParseInt, Trim, Lower, TargetKey;
  }

  /** Any other strategy, and a header that is missing, leave the fallback. */
  lemma {:induction false} FallbackDecides(f: Formats, rule: Rule, record: UsageRecord, now: Instant)
    requires 0 < rule.min <= rule.max
    requires var strategy := Lower(Trim(rule.strategy));
             || strategy !in {"codex_reset_headers", "retry_after_header"}
             || (strategy == "retry_after_header" && "Retry-After" !in record.responseHeaders)
             || (strategy == "codex_reset_headers"
                 && PRIMARY_RESET !in record.responseHeaders && SECONDARY_RESET !in record.responseHeaders)
    ensures BanBy(f, rule, record, now).expiresAt - now == Limited(rule, rule.fallback)
  {
    hide Lower, TargetKey, PercentFull, TrimPercent, ParseInt;
    NoHeaderNoReset(f, record.responseHeaders);
    if PRIMARY_RESET !in record.responseHeaders && SECONDARY_RESET !in record.responseHeaders {
      ValuesByCase(f, record.responseHeaders);
      LatestOfBlank(f);
    }
  }

  lemma {:induction false} NoHeaderNoReset(f: Formats, h: Headers)
    ensures Trim("") == "" && ParseResetAt(f, "").None?
  {
  }

  lemma {:induction false} LatestOfBlank(f: Formats)
    ensures Latest(f, [""]) == ZERO_TIME && Latest(f, ["", ""]) == ZERO_TIME
  {
    NoHeaderNoReset(f, map[]);
    assert [""][..0] == [] && ["", ""][..1] == [""];
  }

  /** A reset that is no integer is read as a formatted time, and blank text as none. */
  lemma {:induction false} FormattedReset(f: Formats, value: string)
    ensures Trim(value) != "" && ParseInt(Trim(value)).None? ==> ParseResetAt(f, value) == f.parseTime(Trim(value))
    ensures Trim(value) == "" ==> ParseResetAt(f, value).None?
  {
    hide Trim, ParseInt;
  }

  /** A ban says which rule banned which route: the record failed with a status the rule lists, at a provider
      the rule is for, and no earlier rule bans it. */
  lemma {:induction false} BanNamesItsRule(
    f: Formats, cfg: HealthConfig, record: UsageRecord, now: Instant, ban: RouteBan)
    requires Observation(f, cfg, record, now) == Some(ban)
    ensures cfg.enabled && record.failed && record.failureStatus != 0
    ensures exists i :: (
              && 0 <= i < |cfg.rules| && ban.reason == cfg.rules[i].name
              && record.failureStatus in cfg.rules[i].statusCodes
              && (cfg.rules[i].provider == "" || EqualFold(Trim(cfg.rules[i].provider), Trim(record.provider)))
              && ban.expiresAt > now
              && Observation(f, cfg.(rules := cfg.rules[..i]), record, now).None?)
    ensures (ban.provider, ban.model, ban.authID, ban.authType) ==
            (record.provider, record.model, record.authID, record.authType)
    ensures ban.statusCode == record.failureStatus && ban.bannedAt == now
    ensures ban.sourceRequestID ==
              (if "X-Request-Id" in record.responseHeaders then record.responseHeaders["X-Request-Id"] else "")
    ensures ban.targetKey == KeyOf(RouteOf(record.provider, record.model, record.authID, record.authType))
  {
    hide TargetKey, KeyOf, RouteOf, Wanted, Clamped, EqualFold, Trim;
    RoutesAreNormal(record.provider, record.model, record.authID, record.authType);
    var i := FirstRule(f, cfg.rules, record, now);
    assert cfg.rules[..i] == cfg.(rules := cfg.rules[..i]).rules;
    FirstBanAt(f, cfg.rules[..i], record, now, i);
  }

  lemma {:induction false} FirstRule(f: Formats, rules: seq<Rule>, record: UsageRecord, now: Instant) returns (i: nat)
    requires FirstBan(f, rules, record, now).Some?
    ensures i < |rules| && Applies(f, rules[i], record, now)
    ensures FirstBan(f, rules, record, now) == Some(BanBy(f, rules[i], record, now))
    ensures forall j :: 0 <= j < i ==> !Applies(f, rules[j], record, now)
  {
    hide Applies, BanBy;
    if Applies(f, rules[0], record, now) {
      i := 0;
    } else {
      i := FirstRule(f, rules[1..], record, now);
      i := i + 1;
    }
  }

  /** A failed record that some rule for it would ban for a positive time is banned. */
  lemma {:induction false} MatchedIsBanned(f: Formats, cfg: HealthConfig, record: UsageRecord, now: Instant, rule: Rule)
    requires cfg.enabled && record.failed && record.failureStatus != 0 && rule in cfg.rules
    requires record.failureStatus in rule.statusCodes && 0 < rule.min <= rule.max
    requires rule.provider == "" || EqualFold(Trim(rule.provider), Trim(record.provider))
    ensures Observation(f, cfg, record, now).Some?
  {
    hide EqualFold, Trim, Wanted, BanBy;
    if FirstBan(f, cfg.rules, record, now).None? { NoRule(f, cfg.rules, record, now, rule); }
  }

  lemma {:induction false} NoRule(f: Formats, rules: seq<Rule>, record: UsageRecord, now: Instant, rule: Rule)
    requires FirstBan(f, rules, record, now).None? && rule in rules
    ensures !Applies(f, rule, record, now)
  {
    hide Applies, BanBy;
    if rule != rules[0] { NoRule(f, rules[1..], record, now, rule); }
  }

  /** The two forms of a target key. */
  lemma {:induction false} KeyForms()
    ensures AuthKey("a", "m") == "auth:a:model:m"
    ensures ProviderKey("p", "m", "t") == "provider:p:model:m:auth_type:t"
  {
    assert "a" + [':'] + ("model:" + "m") == "a:model:m";
    assert ("model:" + "m" + ":auth_type") + [':'] + "t" == "model:m:auth_type:t";
    assert "p" + [':'] + "model:m:auth_type:t" == "p:model:m:auth_type:t";
  }

  /** A window counts as full by the number in its header, with or without a per cent sign or white space;
      a missing or blank header is not full. */
  lemma {:induction false} FullByNumber(f: Formats, h: Headers, value: string, number: string, space: char)
    requires Trim(number) == number != "" && number[|number| - 1] != '%' && IsSpace(space) && space != '%'
    requires value == number || value == number + "%" || value == [space] + number || value == number + [space]
    ensures Full(f, h["X-Codex-Primary-Used-Percent" := value], Primary) <==> f.atLeast100(number)
    ensures Full(f, h["X-Codex-Secondary-Used-Percent" := value], Secondary) <==> f.atLeast100(number)
    ensures !Full(f, h["X-Codex-Primary-Used-Percent" := [space]], Primary)
    ensures "X-Codex-Primary-Used-Percent" !in h ==> !Full(f, h, Primary)
    ensures "X-Codex-Secondary-Used-Percent" !in h ==> !Full(f, h, Secondary)
  {
    hide Trim, IsSpace;
    TrimIgnoresEnds(number, space);
    assert (number + "%")[..|number + "%"| - 1] == number;
    TrimEmpty();
    TrimIgnoresEnds("", space);
    assert [space] + "" == [space];
  }

  /** The resets looked at: the full window's, or both where both or none are full. */
  lemma {:induction false} ResetsOfFullWindows(f: Formats, h: Headers)
    ensures var p, q := Get(h, "X-Codex-Primary-Reset-At"), Get(h, "X-Codex-Secondary-Reset-At");
            var fullP, fullQ := Full(f, h, Primary), Full(f, h, Secondary);
            && (fullP && !fullQ ==> ResetValues(f, h) == [p])
            && (fullQ && !fullP ==> ResetValues(f, h) == [q])
            && (fullP == fullQ ==> ResetValues(f, h) == [p, q])
    ensures CodexWeeklyResetAt(f, h) == ParseResetAt(f, Get(h, "X-Codex-Secondary-Reset-At"))
  {
    hide Full, Get, ParseResetAt;
  }

  /** A bound that is not set does not limit: without a lower bound short durations stay, and without an upper
      one long durations do. */
  lemma {:induction false} UnsetBoundsDoNotLimit(rule: Rule, wanted: int64)
    requires wanted > 0
    ensures rule.min <= 0 && (rule.max <= 0 || wanted <= rule.max) ==> Clamped(rule, wanted) == wanted
    ensures rule.max <= 0 && (rule.min <= 0 || rule.min <= wanted) ==> Clamped(rule, wanted) == wanted
    ensures rule.max <= 0 && 0 < wanted < rule.min ==> Clamped(rule, wanted) == rule.min
    ensures rule.min <= 0 && 0 < rule.max < wanted ==> Clamped(rule, wanted) == rule.max
  {
  }

  /** 10^12 is the last number read as seconds; the next one is read as milliseconds. */
  lemma {:induction false} MillisecondsFromThere(f: Formats)
    ensures ParseResetAt(f, IntText(1_000_000_000_000)) == Some(1_000_000_000_000 * SECOND)
    ensures ParseResetAt(f, IntText(1_000_000_000_001)) == Some(1_000_000_000_001 * (SECOND / 1000))
  {
    hide ParseInt, Trim, IntText;
    DigitsSurviveTrim(1_000_000_000_000);
    DigitsSurviveTrim(1_000_000_000_001);
    ParseIntText(1_000_000_000_000);
    ParseIntText(1_000_000_000_001);
  }
}
