/** Instants as stored text: `ts` prints time.RFC3339Nano in UTC, and the store parses it back. */
module Timestamp {
  import opened Base
  import opened Text
  import opened Decimal
  import opened Calendar

  /** Days from 0000-01-01 to 1970-01-01. */
  const EPOCH_DAY := 719_528
  const DAY_SECONDS := 86_400

  function DayOf(second: int): int { second / DAY_SECONDS + EPOCH_DAY }

  function YearAt(t: Instant): int { YearOf(DayOf(UnixSecond(t))) }

  /** The instants whose printed year has four digits. */
  predicate Printable(t: Instant) { 0 <= YearAt(t) <= 9999 }

  function YearDigits(y: nat): string {
    if y <= 9999 then Pad(y, 4) else NatText(y)
  }

  /** Years are printed with at least four digits and a sign before year 0. */
  function YearText(y: int): string {
    if y < 0 then ['-'] + YearDigits(-y) else YearDigits(y)
  }

  datatype Clock = Clock(hour: int, minute: int, second: int)

  predicate ValidClock(c: Clock) { 0 <= c.hour < 24 && 0 <= c.minute < 60 && 0 <= c.second < 60 }

  function SecondOfDay(c: Clock): int { c.hour * 3600 + c.minute * 60 + c.second }

  function ClockOf(r: int): (c: Clock)
    requires 0 <= r < DAY_SECONDS
    ensures ValidClock(c) && SecondOfDay(c) == r
  {
    Clock(r / 3600, r % 3600 / 60, r % 60)
  }

  /** The calendar date and clock of a whole second. */
  function SecondText(second: int): (s: string)
    ensures 0 <= YearOf(DayOf(second)) <= 9999 ==> |s| == 19
  {
    var d := DateOf(DayOf(second));
    YearText(d.year) + DateText(d, ClockText(ClockOf(second % DAY_SECONDS)))
  }

  function DateText(d: Date, clock: string): string
    requires ValidDate(d)
  {
    ['-'] + (Pad(d.month, 2) + (['-'] + (Pad(d.day, 2) + (['T'] + clock))))
  }

  function ClockText(c: Clock): (s: string)
    requires ValidClock(c)
    ensures |s| == 8
  {
    Pad(c.hour, 2) + ([':'] + (Pad(c.minute, 2) + ([':'] + Pad(c.second, 2))))
  }

  function TrimZeros(s: string): (r: string)
    ensures |r| <= |s| && r == s[..|r|]
    ensures forall i :: |r| <= i < |s| ==> s[i] == '0'
    ensures r == [] || r[|r| - 1] != '0'
  {
    if s != [] && s[|s| - 1] == '0' then TrimZeros(s[..|s| - 1]) else s
  }

  /** The significant fraction digits of an instant. */
  function FractionDigits(t: Instant): (s: string)
    ensures |s| <= 9 && AllDigits(s)
    ensures s == [] || s[|s| - 1] != '0'
  {
    TrimZeros(Pad(t % SECOND, 9))
  }

  /** The fraction is omitted when it is zero. */
  function FractionText(digits: string): string {
    if digits == [] then [] else ['.'] + digits
  }

  function Ts(t: Instant): string {
    SecondText(UnixSecond(t)) + FractionText(FractionDigits(t)) + ['Z']
  }

  function Field(s: string, at: nat, width: nat): (v: Option<int>)
  {
    if at + width <= |s| && AllDigits(s[at..at + width]) then Some(Value(s[at..at + width])) else None
  }

  predicate Separators(s: string) {
    |s| >= 20 && s[4] == '-' && s[7] == '-' && s[10] == 'T' && s[13] == ':' && s[16] == ':'
  }

  /** Nanoseconds of a fraction; digits after the ninth are dropped. */
  function FractionValue(digits: string): int
    requires AllDigits(digits)
  {
    Value((digits + "000000000")[..9])
  }

  function ParseFraction(rest: string): Option<int> {
    if rest == "Z" then Some(0)
    else if |rest| >= 3 && rest[0] == '.' && rest[|rest| - 1] == 'Z' && AllDigits(rest[1..|rest| - 1]) then
      Some(FractionValue(rest[1..|rest| - 1]))
    else None
  }

  function InstantOf(d: Date, c: Clock, fraction: int): Instant
    requires ValidDate(d)
  {
    ((DayNumber(d) - EPOCH_DAY) * DAY_SECONDS + SecondOfDay(c)) * SECOND + fraction
  }

  /** time.Parse(time.RFC3339Nano, s) on UTC texts. */
  function ParseTs(s: string): Option<Instant> {
    if !Separators(s) then None
    else match (Field(s, 0, 4), Field(s, 5, 2), Field(s, 8, 2), Field(s, 11, 2), Field(s, 14, 2), Field(s, 17, 2),
                ParseFraction(s[19..]))
      case (Some(y), Some(m), Some(d), Some(hour), Some(minute), Some(second), Some(fraction)) =>
        if ValidDate(Date(y, m, d)) && ValidClock(Clock(hour, minute, second)) then
          Some(InstantOf(Date(y, m, d), Clock(hour, minute, second), fraction))
        else None
      case _ => None
  }

  lemma {:induction false} TrimmedDigitsPadBack(digits: string, n: nat)
    requires n == |digits| <= 9
    requires AllDigits(digits)
    ensures (TrimZeros(digits) + "000000000")[..n] == digits
  {
    var r := TrimZeros(digits);
    forall i | 0 <= i < n
      ensures (r + "000000000")[i] == digits[i]
    {
    }
  }

  lemma {:induction false} FractionRoundTrip(t: Instant)
    ensures ParseFraction(FractionText(FractionDigits(t)) + ['Z']) == Some(t % SECOND)
  {
    var p := Pad(t % SECOND, 9);
    var digits := FractionDigits(t);
    assert Pow10(9) == SECOND by { PowersOfTen(); }
    PadValue(t % SECOND, 9);
    TrimmedDigitsPadBack(p, 9);
    var rest := FractionText(digits) + ['Z'];
    if digits == [] {
      assert rest == "Z";
      ZerosValue(p);
    } else {
      assert rest[1..|rest| - 1] == digits;
    }
  }

  lemma {:induction false} PowersOfTen()
    ensures Pow10(2) == 100 && Pow10(4) == 10_000 && Pow10(9) == SECOND
  {
    assert Pow10(1) == 10;
    assert Pow10(3) == 1000;
    assert Pow10(5) == 100_000;
    assert Pow10(6) == 1_000_000;
    assert Pow10(7) == 10_000_000;
    assert Pow10(8) == 100_000_000;
  }

  lemma {:induction false} ZerosValue(s: string)
    requires forall i :: 0 <= i < |s| ==> s[i] == '0'
    ensures AllDigits(s) && Value(s) == 0
  {
    if s != [] { ZerosValue(s[..|s| - 1]); }
  }

  /** Parsing undoes printing exactly for the instants whose year has four digits. */
  lemma {:induction false} ParseUndoesPrint(t: Instant)
    ensures ParseTs(Ts(t)) == Some(t) <==> Printable(t)
    ensures ParseTs(Ts(t)).None? <==> !Printable(t)
  {
    if Printable(t) { PrintableParses(t); } else { UnprintableFails(t); }
  }

  lemma {:induction false} UnprintableFails(t: Instant)
    requires !Printable(t)
    ensures ParseTs(Ts(t)).None?
  {
    var y := YearAt(t);
    var s := Ts(t);
    var year := YearText(y);
    assert year <= s;
    if y < 0 {
      assert s[0..4][0] == '-';
      assert Field(s, 0, 4).None?;
    } else {
      ManyDigits(y, 5);
      assert IsDigit(s[4]);
    }
  }

  lemma {:induction false} ManyDigits(n: nat, w: nat)
    requires w >= 1 && n >= Pow10(w - 1)
    ensures |NatText(n)| >= w
  {
    if w >= 2 { ManyDigits(n / 10, w - 1); }
  }

  lemma {:induction false} PrintableParses(t: Instant)
    requires Printable(t)
    ensures ParseTs(Ts(t)) == Some(t)
  {
    hide Pad, ParseTs, ClockText, DateText, FractionDigits, DayNumber;
    var second := UnixSecond(t);
    var d, c := DateOf(DayOf(second)), ClockOf(second % DAY_SECONDS);
    var tail := FractionText(FractionDigits(t)) + ['Z'];
    FractionRoundTrip(t);
    TextLayout(d, c, tail);
    assert Ts(t) == SecondText(second) + tail;
    LayoutParses(Ts(t), d, c, tail);
    InstantRecomposes(t);
  }

  lemma {:induction false} InstantRecomposes(t: Instant)
    ensures InstantOf(DateOf(DayOf(UnixSecond(t))), ClockOf(UnixSecond(t) % DAY_SECONDS), t % SECOND) == t
  {
    var second := UnixSecond(t);
    assert second == DAY_SECONDS * (second / DAY_SECONDS) + second % DAY_SECONDS;
    assert t == SECOND * second + t % SECOND;
  }

  /** Where the fields of a printed instant stand. */
  ghost predicate Layout(s: string, d: Date, c: Clock, tail: string)
    requires ValidDate(d) && ValidClock(c) && d.year >= 0
  {
    && Separators(s) && s[0..4] == Pad(d.year, 4) && s[5..7] == Pad(d.month, 2) && s[8..10] == Pad(d.day, 2)
    && s[11..13] == Pad(c.hour, 2) && s[14..16] == Pad(c.minute, 2) && s[17..19] == Pad(c.second, 2)
    && s[19..] == tail
  }

  lemma {:induction false} TextLayout(d: Date, c: Clock, tail: string)
    requires ValidDate(d) && ValidClock(c) && 0 <= d.year <= 9999 && tail != []
    ensures Layout(YearText(d.year) + DateText(d, ClockText(c)) + tail, d, c, tail)
  {
    Slices(Pad(d.year, 4), Pad(d.month, 2), Pad(d.day, 2), Pad(c.hour, 2), Pad(c.minute, 2), Pad(c.second, 2), tail);
  }

  lemma {:induction false} LayoutParses(s: string, d: Date, c: Clock, tail: string)
    requires ValidDate(d) && ValidClock(c) && 0 <= d.year <= 9999
    requires Layout(s, d, c, tail) && ParseFraction(tail).Some?
    ensures ParseTs(s) == Some(InstantOf(d, c, ParseFraction(tail).value))
  {
    PowersOfTen();
    PadValue(d.year, 4);
    PadValue(d.month, 2);
    PadValue(d.day, 2);
    PadValue(c.hour, 2);
    PadValue(c.minute, 2);
    PadValue(c.second, 2);
  }

  lemma {:induction false} Slices(
    y: string, m: string, d: string, hour: string, minute: string, second: string, tail: string)
    requires |y| == 4 && |m| == |d| == |hour| == |minute| == |second| == 2 && tail != []
    ensures var clock := hour + ([':'] + (minute + ([':'] + second)));
            var s := y + (['-'] + (m + (['-'] + (d + (['T'] + clock))))) + tail;
            && Separators(s) && s[0..4] == y && s[5..7] == m && s[8..10] == d
            && s[11..13] == hour && s[14..16] == minute && s[17..19] == second && s[19..] == tail
  {
  }

  /** The text of two different whole seconds with four-digit years is ordered as the seconds. */
  lemma {:induction false} SecondTextOrder(a: int, b: int)
    requires a < b
    requires 0 <= YearOf(DayOf(a)) <= 9999 && 0 <= YearOf(DayOf(b)) <= 9999
    ensures Less(SecondText(a), SecondText(b))
  {
    var d, e := DateOf(DayOf(a)), DateOf(DayOf(b));
    var p, q := ClockOf(a % DAY_SECONDS), ClockOf(b % DAY_SECONDS);
    if DayOf(a) == DayOf(b) {
      assert SecondOfDay(p) < SecondOfDay(q);
      ClockTextOrder(p, q);
    } else {
      assert DayOf(a) < DayOf(b);
      DatesInOrder(d, e);
    }
    DateTextOrder(d, e, ClockText(p), ClockText(q));
  }

  /** Fixed-width fields compare one by one. */
  lemma {:induction false} FieldOrder(a: nat, b: nat, w: nat, x: string, y: string)
    requires a < Pow10(w) && b < Pow10(w)
    ensures a < b ==> Less(Pad(a, w) + x, Pad(b, w) + y)
    ensures a == b ==> Less(Pad(a, w) + x, Pad(b, w) + y) == Less(x, y)
  {
    if a < b {
      PadOrder(a, b, w);
      LessIrreflexive(Pad(a, w));
      LessByPrefix(Pad(a, w), Pad(b, w), x, y);
    } else if a == b {
      LessAfterPrefix(Pad(a, w), x, y);
    }
  }

  lemma {:induction false} ClockTextOrder(p: Clock, q: Clock)
    requires ValidClock(p) && ValidClock(q)
    requires SecondOfDay(p) < SecondOfDay(q)
    ensures Less(ClockText(p), ClockText(q))
  {
    PowersOfTen();
    var sp, sq := [':'] + Pad(p.second, 2), [':'] + Pad(q.second, 2);
    var mp, mq := [':'] + (Pad(p.minute, 2) + sp), [':'] + (Pad(q.minute, 2) + sq);
    if p.second < q.second { PadOrder(p.second, q.second, 2); }
    LessAfterPrefix([':'], Pad(p.second, 2), Pad(q.second, 2));
    FieldOrder(p.minute, q.minute, 2, sp, sq);
    LessAfterPrefix([':'], Pad(p.minute, 2) + sp, Pad(q.minute, 2) + sq);
    FieldOrder(p.hour, q.hour, 2, mp, mq);
  }

  lemma {:induction false} DateTextOrder(d: Date, e: Date, p: string, q: string)
    requires ValidDate(d) && ValidDate(e)
    requires 0 <= d.year <= 9999 && 0 <= e.year <= 9999
    requires Earlier(d, e) || (d == e && Less(p, q))
    ensures Less(YearText(d.year) + DateText(d, p), YearText(e.year) + DateText(e, q))
  {
    hide Pad, Less;
    PowersOfTen();
    var dp, dq := ['-'] + (Pad(d.day, 2) + (['T'] + p)), ['-'] + (Pad(e.day, 2) + (['T'] + q));
    LessAfterPrefix(['T'], p, q);
    FieldOrder(d.day, e.day, 2, ['T'] + p, ['T'] + q);
    LessAfterPrefix(['-'], Pad(d.day, 2) + (['T'] + p), Pad(e.day, 2) + (['T'] + q));
    FieldOrder(d.month, e.month, 2, dp, dq);
    LessAfterPrefix(['-'], Pad(d.month, 2) + dp, Pad(e.month, 2) + dq);
    FieldOrder(d.year, e.year, 4, DateText(d, p), DateText(e, q));
  }

  /** SQL text order is time order whenever the whole seconds differ, trimmed fractions or not. */
  lemma {:induction false} TextOrderAcrossSeconds(a: Instant, b: Instant)
    requires Printable(a) && Printable(b)
    requires UnixSecond(a) != UnixSecond(b)
    ensures Less(Ts(a), Ts(b)) <==> a < b
  {
    var x, y := UnixSecond(a), UnixSecond(b);
    if x < y { SecondsCompare(a, b); } else { SecondsCompare(b, a); LessAsymmetric(Ts(b), Ts(a)); }
  }

  lemma {:induction false} SecondsCompare(a: Instant, b: Instant)
    requires Printable(a) && Printable(b)
    requires UnixSecond(a) < UnixSecond(b)
    ensures Less(Ts(a), Ts(b))
  {
    hide SecondText, FractionDigits, FractionText, YearOf;
    var x, y := SecondText(UnixSecond(a)), SecondText(UnixSecond(b));
    SecondTextOrder(UnixSecond(a), UnixSecond(b));
    LessIrreflexive(x);
    var p, q := FractionText(FractionDigits(a)) + ['Z'], FractionText(FractionDigits(b)) + ['Z'];
    LessByPrefix(x, y, p, q);
    assert Ts(a) == x + p && Ts(b) == y + q;
  }

  /** The digits of an instant's fraction, and whether one is a prefix of the other. */
  lemma {:induction false} TrimmedOrder(a: string, b: string)
    requires AllDigits(a) && AllDigits(b)
    ensures Less(a + ['Z'], b + ['Z']) <==> (b < a || (!(a <= b) && Less(a, b)))
  {
    if a == [] {
      if b != [] { assert IsDigit(b[0]); }
    } else if b == [] {
      assert IsDigit(a[0]);
    } else {
      assert (a + ['Z'])[1..] == a[1..] + ['Z'] && (b + ['Z'])[1..] == b[1..] + ['Z'];
      TrimmedOrder(a[1..], b[1..]);
      assert a == [a[0]] + a[1..] && b == [b[0]] + b[1..];
      if a[0] == b[0] {
        assert a <= b <==> a[1..] <= b[1..];
        assert b < a <==> b[1..] < a[1..];
      }
    }
  }

  /** Texts that differ inside their common width compare the same whatever follows. */
  lemma {:induction false} LessByDivergence(a: string, b: string, x: string, y: string)
    requires !(a <= b) && !(b <= a)
    ensures Less(a + x, b + y) == Less(a, b)
  {
    assert (a + x)[1..] == a[1..] + x && (b + y)[1..] == b[1..] + y;
    if a[0] == b[0] {
      assert a == [a[0]] + a[1..] && b == [b[0]] + b[1..];
      LessByDivergence(a[1..], b[1..], x, y);
    }
  }

  lemma {:induction false} NothingBelowZeros(u: string, z: string)
    requires |u| == |z| && AllDigits(u) && forall i :: 0 <= i < |z| ==> z[i] == '0'
    ensures !Less(u, z)
  {
    if u != [] { NothingBelowZeros(u[1..], z[1..]); }
  }

  /** Within one whole second the text order is right unless the earlier instant's printed
      fraction is a prefix of the later one's: ".5Z" sorts after ".51Z", and "Z" after ".5Z". */
  lemma {:induction false} TextOrderWithinSecond(a: Instant, b: Instant)
    requires a < b && UnixSecond(a) == UnixSecond(b)
    ensures Less(Ts(a), Ts(b)) <==> !(FractionDigits(a) <= FractionDigits(b))
  {
    hide Ts, SecondText, FractionDigits;
    var da, db := FractionDigits(a), FractionDigits(b);
    FractionsDecide(a, b);
    if da != [] && db != [] {
      LessAfterPrefix(['.'], da + ['Z'], db + ['Z']);
      assert FractionText(da) + ['Z'] == ['.'] + (da + ['Z']);
      assert FractionText(db) + ['Z'] == ['.'] + (db + ['Z']);
      TrimmedOrder(da, db);
      FractionOrder(a, b);
    } else if da == [] {
      assert db == [] || (FractionText(db) + ['Z'])[0] == '.';
    } else {
      FractionOrder(a, b);
      assert false;
    }
  }

  /** A whole second sorts after the half second that follows it. */
  lemma {:induction false} TextOrderFails()
    ensures 0 < SECOND / 2 && Less(Ts(SECOND / 2), Ts(0))
  {
    hide Ts, SecondText, FractionDigits;
    FractionsDecide(SECOND / 2, 0);
    assert Pad(0, 9) == ['0', '0', '0', '0', '0', '0', '0', '0', '0'];
    DigitsSplit(0);
    assert FractionDigits(0) == [] by { WholeSecond(); }
    TextOrderWithinSecond(0, SECOND / 2);
    var a, b := FractionText(FractionDigits(SECOND / 2)) + ['Z'], ['Z'];
    LessTotal(a, b);
    FractionOrder(0, SECOND / 2);
    assert a[0] == '.';
  }

  lemma {:induction false} WholeSecond()
    ensures FractionDigits(0) == []
  {
    hide TrimZeros;
    assert Pad(0, 9) == ['0', '0', '0', '0', '0', '0', '0', '0', '0'];
  }

  lemma {:induction false} FractionsDecide(a: Instant, b: Instant)
    requires UnixSecond(a) == UnixSecond(b)
    ensures Less(Ts(a), Ts(b)) == Less(FractionText(FractionDigits(a)) + ['Z'], FractionText(FractionDigits(b)) + ['Z'])
  {
    hide SecondText, FractionDigits, FractionText;
    var x := SecondText(UnixSecond(a));
    var p, q := FractionText(FractionDigits(a)) + ['Z'], FractionText(FractionDigits(b)) + ['Z'];
    LessAfterPrefix(x, p, q);
    assert Ts(a) == x + p && Ts(b) == x + q;
  }

  lemma {:induction false} FractionsBelow(a: Instant, b: Instant)
    requires a < b && UnixSecond(a) == UnixSecond(b)
    ensures Less(Pad(a % SECOND, 9), Pad(b % SECOND, 9))
  {
    hide Pad, Less;
    PowersOfTen();
    assert a == SECOND * UnixSecond(a) + a % SECOND && b == SECOND * UnixSecond(b) + b % SECOND;
    PadOrder(a % SECOND, b % SECOND, 9);
  }

  lemma {:induction false} DigitsSplit(t: Instant)
    ensures var p, d := Pad(t % SECOND, 9), FractionDigits(t);
            p == d + p[|d|..] && AllDigits(p) && forall i :: 0 <= i < |p[|d|..]| ==> p[|d|..][i] == '0'
  {
    hide Pad;
  }

  /** A smaller fraction prints digits that are smaller or a prefix, never an extension. */
  lemma {:induction false} FractionOrder(a: Instant, b: Instant)
    requires a < b && UnixSecond(a) == UnixSecond(b)
    ensures var da, db := FractionDigits(a), FractionDigits(b);
            !(db <= da) && (da <= db || Less(da, db))
  {
    hide Pad, FractionDigits, Less, Pow10;
    var da, db := FractionDigits(a), FractionDigits(b);
    var pa, pb := Pad(a % SECOND, 9), Pad(b % SECOND, 9);
    FractionsBelow(a, b);
    DigitsSplit(a);
    DigitsSplit(b);
    if db <= da {
      var u := pa[|db|..];
      assert pa == db + u;
      LessAfterPrefix(db, u, pb[|db|..]);
      NothingBelowZeros(u, pb[|db|..]);
    } else if !(da <= db) {
      LessByDivergence(da, db, pa[|da|..], pb[|db|..]);
    }
  }

  /** The instants that can be read back: from 0000-01-01T00:00:00Z up to, not including,
      10000-01-01T00:00:00Z. */
  lemma {:induction false} FourDigitYears(t: Instant)
    ensures Printable(t) <==> -62_167_219_200 * SECOND <= t < 253_402_300_800 * SECOND
  {
    hide YearOf, DaysBeforeYear;
    var day := DayOf(UnixSecond(t));
    var y := YearOf(day);
    assert t >= -62_167_219_200 * SECOND <==> UnixSecond(t) >= -62_167_219_200;
    assert t >= 253_402_300_800 * SECOND <==> UnixSecond(t) >= 253_402_300_800;
    assert UnixSecond(t) >= -62_167_219_200 <==> day >= 0;
    assert UnixSecond(t) >= 253_402_300_800 <==> day >= 3_652_425;
    FirstDay();
    TenThousandYears();
    if y < 0 { YearsInOrder(y + 1, 0); } else { YearsInOrder(0, y); }
    if y <= 9999 { YearsInOrder(y + 1, 10_000); } else { YearsInOrder(10_000, y); }
  }

  lemma {:induction false} TenThousandYears()
    ensures DaysBeforeYear(10_000) == 3_652_425
  {
  }

  /** A decision taken on texts errs by less than one second. */
  lemma {:induction false} TextDecisionsWithinOneSecond(a: Instant, b: Instant)
    requires Printable(a) && Printable(b)
    ensures Less(Ts(a), Ts(b)) ==> a < b + SECOND
    ensures a + SECOND <= b ==> Less(Ts(a), Ts(b))
  {
    if UnixSecond(a) != UnixSecond(b) { TextOrderAcrossSeconds(a, b); }
  }

  /** The texts the store writes tell all instants apart. */
  lemma {:induction false} TsInjective(a: Instant, b: Instant)
    requires Printable(a) && Printable(b) && Ts(a) == Ts(b)
    ensures a == b
  {
    ParseUndoesPrint(a);
    ParseUndoesPrint(b);
  }

  // ----- The form itself -----

  lemma {:induction false} TextOf(d: Date, c: Clock, fraction: nat)
    requires ValidDate(d) && ValidClock(c) && fraction < SECOND
    ensures Ts(InstantOf(d, c, fraction)) ==
              YearText(d.year) + DateText(d, ClockText(c)) + FractionText(TrimZeros(Pad(fraction, 9))) + ['Z']
  {
    hide YearText, DateText, ClockText, FractionText, TrimZeros, Pad, DayNumber;
    var t := InstantOf(d, c, fraction);
    var second := (DayNumber(d) - EPOCH_DAY) * DAY_SECONDS + SecondOfDay(c);
    assert t == SECOND * second + fraction;
    assert UnixSecond(t) == second && t % SECOND == fraction;
    assert DayOf(second) == DayNumber(d) && second % DAY_SECONDS == SecondOfDay(c);
    DatesInOrder(DateOf(DayOf(second)), d);
    assert ClockOf(second % DAY_SECONDS) == c;
  }

  lemma {:induction false} TwoDigits(n: nat)
    requires n < 100
    ensures Pad(n, 2) == [Digit(n / 10), Digit(n % 10)]
  {
    assert Pad(n / 10, 1) == Pad(n / 100, 0) + [Digit(n / 10 % 10)];
  }

  lemma {:induction false} FourDigits(n: nat)
    requires n < 10_000
    ensures Pad(n, 4) == [Digit(n / 1000), Digit(n / 100 % 10), Digit(n / 10 % 10), Digit(n % 10)]
  {
    assert Pad(n / 1000, 1) == Pad(n / 10_000, 0) + [Digit(n / 1000 % 10)];
    assert Pad(n / 100, 2) == Pad(n / 1000, 1) + [Digit(n / 100 % 10)];
    assert Pad(n / 10, 3) == Pad(n / 100, 2) + [Digit(n / 10 % 10)];
  }

  /** A leap day, to half a second: date and time separated by T, a point before the fraction, Z at the end. */
  lemma {:induction false} LeapDayText()
    ensures Ts(951_826_554 * SECOND + SECOND / 2) == "2000-02-29T12:15:54.5Z"
  {
    hide Ts, Pad, TrimZeros, Digit, DayNumber, InstantOf;
    LeapDate();
    TextOf(Date(2000, 2, 29), Clock(12, 15, 54), SECOND / 2);
    FourDigits(2000);
    TwoDigits(2);
    TwoDigits(29);
    TwoDigits(12);
    TwoDigits(15);
    TwoDigits(54);
    DigitChars();
    HalfSecond();
  }

  lemma {:induction false} DigitChars()
    ensures Digit(0) == '0' && Digit(1) == '1' && Digit(2) == '2' && Digit(4) == '4' && Digit(5) == '5'
    ensures Digit(9) == '9'
  {
  }

  lemma {:induction false} LeapDate()
    ensures ValidDate(Date(2000, 2, 29))
    ensures InstantOf(Date(2000, 2, 29), Clock(12, 15, 54), SECOND / 2) == 951_826_554 * SECOND + SECOND / 2
  {
    hide DaysBeforeYear;
    assert DaysBeforeYear(2000) == 730_485 by { YearTwoThousand(); }
    assert DayNumber(Date(2000, 2, 29)) == 730_544;
  }

  lemma {:induction false} YearTwoThousand()
    ensures DaysBeforeYear(2000) == 730_485
  {
  }

  lemma {:induction false} HalfSecond()
    ensures TrimZeros(Pad(SECOND / 2, 9)) == "5" && TrimZeros(Pad(0, 9)) == ""
  {
    hide TrimZeros;
    var p := Pad(SECOND / 2, 9);
    assert p == ['5', '0', '0', '0', '0', '0', '0', '0', '0'] by { HalfDigits(); }
    var r := TrimZeros(p);
    assert r != [] by { assert p[0] == '5'; }
    WholeSecond();
  }

  lemma {:induction false} HalfDigits()
    ensures Pad(SECOND / 2, 9) == ['5', '0', '0', '0', '0', '0', '0', '0', '0']
  {
    assert Pad(5, 1) == ['5'];
    assert Pad(50, 2) == Pad(5, 1) + ['0'];
    assert Pad(500, 3) == Pad(50, 2) + ['0'];
    assert Pad(5_000, 4) == Pad(500, 3) + ['0'];
    assert Pad(50_000, 5) == Pad(5_000, 4) + ['0'];
    assert Pad(500_000, 6) == Pad(50_000, 5) + ['0'];
    assert Pad(5_000_000, 7) == Pad(500_000, 6) + ['0'];
    assert Pad(50_000_000, 8) == Pad(5_000_000, 7) + ['0'];
  }
}
