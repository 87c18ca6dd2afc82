/** The string operations of Go's strings and bytes packages that the plugin relies on, and
    the binary text order that SQLite and Go's `<` on strings share. */
module Text {
  /** unicode.IsSpace */
  predicate IsSpace(c: char) {
    || c == ' ' || '\t' <= c <= '\r' || c == '\U{85}' || c == '\U{A0}' || c == '\U{1680}'
    || '\U{2000}' <= c <= '\U{200A}' || c == '\U{2028}' || c == '\U{2029}' || c == '\U{202F}'
    || c == '\U{205F}' || c == '\U{3000}'
  }

  function TrimLeft(s: string): string {
    if s != [] && IsSpace(s[0]) then TrimLeft(s[1..]) else s
  }

  function TrimRight(s: string): string {
    if s != [] && IsSpace(s[|s| - 1]) then TrimRight(s[..|s| - 1]) else s
  }

  /** strings.TrimSpace and bytes.TrimSpace */
  function Trim(s: string): string { TrimRight(TrimLeft(s)) }

  lemma {:induction false} TrimRightKeepsHead(s: string)
    requires TrimRight(s) != []
    ensures s != [] && TrimRight(s)[0] == s[0]
  {
    if s != [] && IsSpace(s[|s| - 1]) {
      TrimRightKeepsHead(s[..|s| - 1]);
    }
  }

  lemma {:induction false} TrimLeftEnds(s: string)
    ensures TrimLeft(s) == [] || !IsSpace(TrimLeft(s)[0])
  {
    if s != [] && IsSpace(s[0]) { TrimLeftEnds(s[1..]); }
  }

  lemma {:induction false} TrimRightEnds(s: string)
    ensures TrimRight(s) == [] || !IsSpace(TrimRight(s)[|TrimRight(s)| - 1])
  {
    if s != [] && IsSpace(s[|s| - 1]) { TrimRightEnds(s[..|s| - 1]); }
  }

  /** Trimming twice is trimming once. */
  lemma {:induction false} TrimIdempotent(s: string)
    ensures Trim(Trim(s)) == Trim(s)
  {
    var l := TrimLeft(s);
    var t := TrimRight(l);
    TrimRightEnds(l);
    if t != [] {
      TrimRightKeepsHead(l);
      TrimLeftEnds(s);
    }
  }

  /** Text without white space at its ends is left alone. */
  lemma {:induction false} TrimKeeps(s: string)
    requires s != [] && !IsSpace(s[0]) && !IsSpace(s[|s| - 1])
    ensures Trim(s) == s
  {
  }

  lemma {:induction false} TrimLeftAppendsSpace(s: string, w: char)
    requires IsSpace(w)
    ensures TrimLeft(s + [w]) == if TrimLeft(s) == [] then [] else TrimLeft(s) + [w]
  {
    if s == [] {
      assert s + [w] == [w];
      assert TrimLeft([w]) == TrimLeft([]);
    } else if IsSpace(s[0]) {
      assert (s + [w])[1..] == s[1..] + [w];
      TrimLeftAppendsSpace(s[1..], w);
    }
  }

  /** White space at either end never changes a trimmed text. */
  lemma {:induction false} TrimIgnoresEnds(s: string, w: char)
    requires IsSpace(w)
    ensures Trim([w] + s) == Trim(s)
    ensures Trim(s + [w]) == Trim(s)
  {
    assert ([w] + s)[1..] == s;
    TrimLeftAppendsSpace(s, w);
    var l := TrimLeft(s);
    if l != [] { assert (l + [w])[..|l + [w]| - 1] == l; }
  }

  /** unicode.ToLower on ASCII letters, and on the two further characters that map into ASCII. */
  function LowerChar(c: char): char {
    if 'A' <= c <= 'Z' then (c as int + 32) as char
    else if c == '\U{212A}' then 'k'
    else if c == '\U{130}' then 'i'
    else c
  }

  /** strings.ToLower */
  function Lower(s: string): (r: string)
    ensures |r| == |s|
    ensures forall i :: 0 <= i < |s| ==> r[i] == LowerChar(s[i])
  {
    if s == [] then [] else [LowerChar(s[0])] + Lower(s[1..])
  }

  /** unicode.SimpleFold on ASCII letters, and the two further characters folded with one. */
  function FoldChar(c: char): char {
    if 'A' <= c <= 'Z' then (c as int + 32) as char
    else if c == '\U{212A}' then 'k'
    else if c == '\U{17F}' then 's'
    else c
  }

  /** strings.EqualFold */
  predicate EqualFold(a: string, b: string) {
    |a| == |b| && forall i :: 0 <= i < |a| ==> FoldChar(a[i]) == FoldChar(b[i])
  }

  /** Binary comparison of texts. */
  predicate Less(a: string, b: string) {
    if b == [] then false
    else if a == [] then true
    else a[0] < b[0] || (a[0] == b[0] && Less(a[1..], b[1..]))
  }

  lemma {:induction false} LessIrreflexive(a: string)
    ensures !Less(a, a)
  {
    if a != [] { LessIrreflexive(a[1..]); }
  }

  lemma {:induction false} LessTransitive(a: string, b: string, c: string)
    requires Less(a, b) && Less(b, c)
    ensures Less(a, c)
  {
    if a != [] && a[0] == b[0] == c[0] {
      LessTransitive(a[1..], b[1..], c[1..]);
    }
  }

  lemma {:induction false} LessTotal(a: string, b: string)
    ensures a == b || Less(a, b) || Less(b, a)
  {
    if a != [] && b != [] && a[0] == b[0] {
      LessTotal(a[1..], b[1..]);
      if a[1..] == b[1..] { assert a == [a[0]] + a[1..] == b; }
    }
  }

  lemma {:induction false} LessAsymmetric(a: string, b: string)
    requires Less(a, b)
    ensures !Less(b, a) && a != b
  {
    LessIrreflexive(a);
    if Less(b, a) { LessTransitive(a, b, a); }
  }

  /** A common prefix does not matter. */
  lemma {:induction false} LessAfterPrefix(p: string, a: string, b: string)
    ensures Less(p + a, p + b) == Less(a, b)
  {
    if p == [] {
      assert p + a == a && p + b == b;
    } else {
      assert (p + a)[1..] == p[1..] + a && (p + b)[1..] == p[1..] + b;
      LessAfterPrefix(p[1..], a, b);
    }
  }

  /** Different prefixes of one width decide the comparison. */
  lemma {:induction false} LessByPrefix(p: string, q: string, a: string, b: string)
    requires |p| == |q| && p != q
    ensures Less(p + a, q + b) == Less(p, q)
  {
    assert (p + a)[1..] == p[1..] + a && (q + b)[1..] == q[1..] + b;
    if p[0] == q[0] {
      assert p == [p[0]] + p[1..] && q == [q[0]] + q[1..];
      LessByPrefix(p[1..], q[1..], a, b);
    }
  }

  /** bytes.Split(s, "\n") */
  function Lines(s: string): (r: seq<string>)
    ensures |r| >= 1
  {
    if s == [] then [[]]
    else
      var rest := Lines(s[1..]);
      if s[0] == '\n' then [[]] + rest else [[s[0]] + rest[0]] + rest[1..]
  }

  /** A line break between two texts splits their lines cleanly. */
  lemma {:induction false} LinesOfJoin(a: string, b: string)
    ensures Lines(a + ['\n'] + b) == Lines(a) + Lines(b)
  {
    var whole := a + ['\n'] + b;
    if a == [] {
      assert whole[1..] == b;
    } else {
      assert whole[1..] == a[1..] + ['\n'] + b;
      LinesOfJoin(a[1..], b);
    }
  }

  function ExtendLast(lines: seq<string>, c: char): seq<string>
    requires |lines| >= 1
  {
    lines[..|lines| - 1] + [lines[|lines| - 1] + [c]]
  }

  /** Appending a character other than a line break only extends the last line. */
  lemma {:induction false} LinesOfAppend(a: string, c: char)
    requires c != '\n'
    ensures Lines(a + [c]) == ExtendLast(Lines(a), c)
  {
    if a == [] {
      assert a + [c] == [c] && [c][1..] == a;
      assert Lines([c]) == [[c] + a] + [];
      assert [c] + a == a + [c];
    } else {
      assert (a + [c])[1..] == a[1..] + [c];
      LinesOfAppend(a[1..], c);
      var rest := Lines(a[1..]);
      if a[0] != '\n' {
        ExtendLastCons(a[0], rest, c);
      } else {
        assert [[]] + ExtendLast(rest, c) == ExtendLast([[]] + rest, c);
      }
    }
  }

  lemma {:induction false} ExtendLastCons(h: char, lines: seq<string>, c: char)
    requires |lines| >= 1
    ensures var e := ExtendLast(lines, c);
            [[h] + e[0]] + e[1..] == ExtendLast([[h] + lines[0]] + lines[1..], c)
  {
    if |lines| == 1 {
      assert [h] + (lines[0] + [c]) == ([h] + lines[0]) + [c];
    }
  }

  /** bytes.Join(parts, "\n") */
  function JoinLines(parts: seq<string>): string {
    if parts == [] then []
    else if |parts| == 1 then parts[0]
    else parts[0] + ['\n'] + JoinLines(parts[1..])
  }

  function Concat<T>(parts: seq<seq<T>>): seq<T> {
    if parts == [] then [] else parts[0] + Concat(parts[1..])
  }

  /** strings.Fields */
  function Fields(s: string): seq<string> {
    FieldsFrom(s, [])
  }

  function FieldsFrom(s: string, word: string): seq<string> {
    var emitted := if word == [] then [] else [word];
    if s == [] then emitted
    else if IsSpace(s[0]) then emitted + FieldsFrom(s[1..], [])
    else FieldsFrom(s[1..], word + [s[0]])
  }

  // ----- The characters themselves -----

  /** The white space of Unicode, by code point. */
  lemma {:induction false} SpacesByCode(c: char)
    ensures IsSpace(c) <==>
            var n := c as int;
            || 9 <= n <= 13 || 0x2000 <= n <= 0x200A
            || n in {0x20, 0x85, 0xA0, 0x1680, 0x2028, 0x2029, 0x202F, 0x205F, 0x3000}
  {
  }

  /** Two ASCII texts are equal up to case exactly when their lower-case forms are equal. */
  lemma {:induction false} FoldingIsLowering(a: string, b: string)
    requires forall c :: c in a || c in b ==> c as int < 128
    ensures EqualFold(a, b) <==> Lower(a) == Lower(b)
  {
    hide FoldChar, LowerChar, Lower;
    forall i | 0 <= i < |a| && i < |b|
      ensures FoldChar(a[i]) == FoldChar(b[i]) <==> LowerChar(a[i]) == LowerChar(b[i])
    {
      assert a[i] in a && b[i] in b;
      FoldedAlike(a[i], b[i]);
    }
    if EqualFold(a, b) { assert Lower(a) == Lower(b); }
    if Lower(a) == Lower(b) {
      assert forall i :: 0 <= i < |a| ==> LowerChar(a[i]) == Lower(a)[i] == Lower(b)[i] == LowerChar(b[i]);
    }
  }

  lemma {:induction false} FoldedAlike(a: char, b: char)
    requires a as int < 128 && b as int < 128
    ensures FoldChar(a) == FoldChar(b) <==> LowerChar(a) == LowerChar(b)
  {
  }

  /** Upper-case letters, and no other ASCII characters, are changed by lower-casing. */
  lemma {:induction false} LoweredLetters(c: char)
    requires c as int < 128
    ensures 'A' <= c <= 'Z' ==> 'a' <= LowerChar(c) <= 'z' && LowerChar(c) as int - 'a' as int == c as int - 'A' as int
    ensures !('A' <= c <= 'Z') ==> LowerChar(c) == c
    ensures LowerChar('\U{212A}') == 'k' && LowerChar('\U{130}') == 'i'
    ensures EqualFold("\U{212A}\U{17F}", "kS") && !EqualFold("\U{130}", "i")
  {
    assert FoldChar("\U{130}"[0]) != FoldChar("i"[0]);
  }
}
