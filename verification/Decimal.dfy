/** Decimal numerals: fixed width as in timestamps, shortest as in cycle labels, and strconv.ParseInt. */
module Decimal {
  import opened Base
  import Text

  function Digit(n: int): (c: char)
    requires 0 <= n < 10
  {
    (48 + n) as char
  }

  predicate IsDigit(c: char) { '0' <= c <= '9' }

  predicate AllDigits(s: string) { forall i :: 0 <= i < |s| ==> IsDigit(s[i]) }

  function Pow10(w: nat): (p: int)
    ensures p >= 1
  {
    if w == 0 then 1 else 10 * Pow10(w - 1)
  }

  /** The number a numeral denotes. */
  function Value(s: string): (v: int)
    requires AllDigits(s)
    ensures 0 <= v < Pow10(|s|)
  {
    if s == [] then 0 else 10 * Value(s[..|s| - 1]) + (s[|s| - 1] as int - 48)
  }

  /** The last `w` digits of n, padded with zeros. */
  function Pad(n: nat, w: nat): (s: string)
    ensures |s| == w && AllDigits(s)
  {
    if w == 0 then [] else Pad(n / 10, w - 1) + [Digit(n % 10)]
  }

  lemma {:induction false} PadValue(n: nat, w: nat)
    requires n < Pow10(w)
    ensures Value(Pad(n, w)) == n
  {
    if w > 0 {
      PadValue(n / 10, w - 1);
      assert Pad(n, w)[..w - 1] == Pad(n / 10, w - 1);
    }
  }

  /** Fixed-width numerals are ordered as their numbers. */
  lemma {:induction false} PadOrder(a: nat, b: nat, w: nat)
    requires a < b < Pow10(w)
    ensures Text.Less(Pad(a, w), Pad(b, w))
  {
    if w > 0 {
      var x, y := Pad(a / 10, w - 1), Pad(b / 10, w - 1);
      if a / 10 == b / 10 {
        Text.LessAfterPrefix(x, [Digit(a % 10)], [Digit(b % 10)]);
      } else {
        PadOrder(a / 10, b / 10, w - 1);
        Text.LessIrreflexive(x);
        Text.LessByPrefix(x, y, [Digit(a % 10)], [Digit(b % 10)]);
      }
    }
  }

  /** The shortest numeral of a natural number. */
  function NatText(n: nat): (s: string)
    ensures |s| >= 1 && AllDigits(s) && IsDigit(s[0])
    ensures Value(s) == n
  {
    if n < 10 then
      assert [Digit(n)][..0] == [];
      [Digit(n)]
    else
      var head := NatText(n / 10);
      var s := head + [Digit(n % 10)];
      assert s[..|s| - 1] == head;
      s
  }

  /** fmt's %d */
  function IntText(n: int): (s: string)
    ensures |s| >= 1
  {
    if n < 0 then ['-'] + NatText(-n) else NatText(n)
  }

  lemma {:induction false} IntTextInjective(a: int, b: int)
    requires IntText(a) == IntText(b)
    ensures a == b
  {
    var s := IntText(a);
    if a < 0 && b < 0 {
      assert NatText(-a) == s[1..] == NatText(-b);
    } else if a >= 0 && b >= 0 {
      assert NatText(a) == NatText(b);
    } else {
      assert false;
    }
  }

  /** strconv.ParseInt(s, 10, 64): an optional sign, at least one digit, and the int64 range. */
  function ParseInt(s: string): (r: Option<int64>)
  {
    var signed := s != [] && (s[0] == '-' || s[0] == '+');
    var digits := if signed then s[1..] else s;
    if digits == [] || !AllDigits(digits) then None
    else
      var v := if signed && s[0] == '-' then -Value(digits) else Value(digits);
      if -TWO_63 <= v < TWO_63 then Some(v) else None
  }

  /** Printing a number and parsing it gives it back. */
  lemma {:induction false} ParseIntText(n: int64)
    ensures ParseInt(IntText(n)) == Some(n)
  {
    hide NatText, Value;
    if n < 0 {
      assert IntText(n)[1..] == NatText(-(n as int));
    } else {
      assert IsDigit(NatText(n)[0]);
    }
  }

  /** Numbers beyond 64 bits are refused, a plus sign is allowed, and a sign or nothing alone is no number. */
  lemma {:induction false} ParseIntLimits(n: int)
    ensures !(-TWO_63 <= n < TWO_63) ==> ParseInt(IntText(n)).None?
    ensures 0 <= n < TWO_63 ==> ParseInt(['+'] + IntText(n)) == Some(n)
    ensures ParseInt("").None? && ParseInt("+").None? && ParseInt("-").None?
  {
    hide NatText, Value;
    if n < 0 {
      assert IntText(n)[1..] == NatText(-n);
    } else {
      assert IsDigit(NatText(n)[0]);
      assert (['+'] + IntText(n))[1..] == NatText(n);
    }
  }
}
