/**
 The number printing and parsing that camera/CameraParameters.cpp relies on: "%d", strtol, and
 the pair and list parsers built on them.
 */
module Numerals {
  import opened Arithmetic
  import opened Wrappers

  const LONG_LIMIT := 0x8000_0000_0000_0000   // strtol works on 64-bit numbers

  // ----- Printing -----

  function DigitChar(d: nat): char
    requires d < 10
  {
    ('0' as int + d) as char
  }

  function Digits(n: nat): (s: string)
    ensures s != []
  {
    if n < 10 then [DigitChar(n)] else Digits(n / 10) + [DigitChar(n % 10)]
  }

  /** sprintf with "%d". */
  function Print(i: int): string {
    if i < 0 then ['-'] + Digits(-i) else Digits(i)
  }

  // ----- strtol -----

  predicate IsSpace(c: char) {
    c == ' ' || c == '\t' || c == '\n' || c == '\r' || c == 11 as char || c == 12 as char
  }

  /** The value of a digit, 36 for anything else. */
  function DigitValue(c: char): nat {
    if '0' <= c <= '9' then c as int - '0' as int
    else if 'a' <= c <= 'z' then c as int - 'a' as int + 10
    else if 'A' <= c <= 'Z' then c as int - 'A' as int + 10
    else 36
  }

  predicate IsDigit(base: nat, c: char) {
    DigitValue(c) < base <= 36
  }

  function SkipSpaces(s: string): (r: string)
    ensures |r| <= |s|
  {
    if s != [] && IsSpace(s[0]) then SkipSpaces(s[1..]) else s
  }

  /** Read digits: the value with `acc` before them, and what is left. */
  function Scan(base: nat, acc: nat, s: string): (r: (nat, string))
    ensures |r.1| <= |s|
    decreases |s|
  {
    if s == [] || !IsDigit(base, s[0]) then (acc, s)
    else Scan(base, acc * base + DigitValue(s[0]), s[1..])
  }

  function Clamp(i: int): int {
    if i < -LONG_LIMIT then -LONG_LIMIT else if i >= LONG_LIMIT then LONG_LIMIT - 1 else i
  }

  /** The digits behind an optional sign, in base ten or in the base the prefix tells. */
  function Magnitude(u: string, anyBase: bool): (r: Option<(nat, string)>)
    ensures r.Some? ==> |r.value.1| <= |u|
  {
    var hex := anyBase && |u| >= 3 && u[0] == '0' && (u[1] == 'x' || u[1] == 'X') && IsDigit(16, u[2]);
    var base := if hex then 16 else if anyBase && u != [] && u[0] == '0' then 8 else 10;
    var v := if hex then u[2..] else u;
    if v == [] || !IsDigit(base, v[0]) then None else Some(Scan(base, 0, v))
  }

  /** strtol in base ten or, with base zero, in any base: the number, and what is left of the
      string, which is all of it if there is no number. */
  function Strtol(s: string, anyBase: bool): (r: (int, string))
    ensures |r.1| <= |s|
  {
    var t := SkipSpaces(s);
    if t == [] then (0, s)
    else
      var m := Magnitude(if t[0] == '-' || t[0] == '+' then t[1..] else t, anyBase);
      if m.None? then (0, s)
      else (Clamp(if t[0] == '-' then 0 - m.value.0 else m.value.0), m.value.1)
  }

  // ----- Printing and parsing undo each other -----

  function Value(base: nat, acc: nat, s: string): nat {
    if s == [] then acc else Value(base, acc, s[..|s| - 1]) * base + DigitValue(s[|s| - 1])
  }

  predicate AllDigits(base: nat, s: string) {
    forall i :: 0 <= i < |s| ==> IsDigit(base, s[i])
  }

  lemma {:induction false} ValueCons(base: nat, acc: nat, s: string)
    requires s != []
    ensures Value(base, acc, s) == Value(base, acc * base + DigitValue(s[0]), s[1..])
  {
    if |s| == 1 {
      assert s[..0] == [] && s[1..] == [];
    } else {
      var front := s[..|s| - 1];
      ValueCons(base, acc, front);
      assert s[1..][..|s| - 2] == front[1..];
      assert s[1..][|s| - 2] == s[|s| - 1];
    }
  }

  /** Digits are read up to the first character that is none. */
  lemma {:induction false} ScanAll(base: nat, acc: nat, s: string, rest: string)
    requires AllDigits(base, s) && (rest == [] || !IsDigit(base, rest[0]))
    ensures Scan(base, acc, s + rest) == (Value(base, acc, s), rest)
    decreases |s|
  {
    if s == [] {
      assert s + rest == rest;
    } else {
      assert (s + rest)[1..] == s[1..] + rest;
      ScanAll(base, acc * base + DigitValue(s[0]), s[1..], rest);
      ValueCons(base, acc, s);
    }
  }

  lemma DigitCharValue(d: nat)
    requires d < 10
    ensures DigitValue(DigitChar(d)) == d && IsDigit(10, DigitChar(d))
    ensures (DigitChar(d) == '0' <==> d == 0) && !IsSpace(DigitChar(d))
    ensures DigitChar(d) != '-' && DigitChar(d) != '+' && DigitChar(d) != ';' && DigitChar(d) != '='
  {
  }

  lemma {:induction false} DigitsValue(n: nat)
    ensures AllDigits(10, Digits(n)) && Value(10, 0, Digits(n)) == n
    ensures n > 0 ==> Digits(n)[0] != '0'
    ensures n == 0 ==> Digits(n) == "0"
    ensures Plain(Digits(n))
  {
    if n < 10 {
      DigitCharValue(n);
      assert Digits(n)[..0] == [];
    } else {
      DigitsValue(n / 10);
      DigitCharValue(n % 10);
      var s := Digits(n);
      assert s[..|s| - 1] == Digits(n / 10);
    }
  }

  /** Free of the characters that separate parameters. */
  predicate Plain(s: string) {
    forall i :: 0 <= i < |s| ==> s[i] != ';' && s[i] != '='
  }

  lemma PrintPlain(i: int)
    ensures Plain(Print(i)) && Print(i) != []
  {
    DigitsValue(if i < 0 then -i else i);
  }

  lemma MagnitudePrint(n: nat, rest: string, anyBase: bool)
    requires rest == [] || !IsDigit(10, rest[0])
    requires anyBase ==> rest == []
    ensures Magnitude(Digits(n) + rest, anyBase) == Some((n, rest))
  {
    DigitsValue(n);
    var s := Digits(n) + rest;
    assert s[0] == Digits(n)[0] && IsDigit(10, s[0]);
    ScanAll(10, 0, Digits(n), rest);
    if anyBase && n == 0 {
      assert s == "0";
      assert IsDigit(8, '0');
      assert Scan(8, 0, "0") == (0, []) by {
        assert "0"[1..] == [];
      }
    }
  }

  lemma SmallNumbers(i: int)
    requires Int32(i)
    ensures Clamp(i) == i && ToInt32(i) == i
  {
  }

  lemma StrtolPositive(t: string, n: nat, rest: string, anyBase: bool)
    requires t != [] && !IsSpace(t[0]) && t[0] != '-' && t[0] != '+'
    requires Magnitude(t, anyBase) == Some((n, rest))
    ensures Strtol(t, anyBase) == (Clamp(n), rest)
  {
    assert SkipSpaces(t) == t;
  }

  lemma StrtolNegative(t: string, n: nat, rest: string, anyBase: bool)
    requires Magnitude(t, anyBase) == Some((n, rest))
    ensures Strtol(['-'] + t, anyBase) == (Clamp(0 - n), rest)
  {
    var s := ['-'] + t;
    assert SkipSpaces(s) == s;
    assert s[1..] == t;
  }

  lemma FirstDigit(n: nat)
    ensures !IsSpace(Digits(n)[0]) && Digits(n)[0] != '-' && Digits(n)[0] != '+'
  {
    DigitsValue(n);
    assert IsDigit(10, Digits(n)[0]);
  }

  /** strtol reads back what "%d" printed, up to the next character that is not a digit. */
  lemma StrtolPrint(i: int, rest: string, anyBase: bool)
    requires Int32(i)
    requires rest == [] || !IsDigit(10, rest[0])
    requires anyBase ==> rest == []
    ensures Strtol(Print(i) + rest, anyBase) == (i, rest)
    ensures ToInt32(i) == i
  {
    SmallNumbers(i);
    if i >= 0 {
      FirstDigit(i);
      MagnitudePrint(i, rest, anyBase);
      StrtolPositive(Digits(i) + rest, i, rest, anyBase);
    } else {
      StrtolMinus(i, rest, anyBase);
    }
  }

  lemma StrtolMinus(i: int, rest: string, anyBase: bool)
    requires i < 0 && Int32(i)
    requires rest == [] || !IsDigit(10, rest[0])
    requires anyBase ==> rest == []
    ensures Strtol(Print(i) + rest, anyBase) == (i, rest)
  {
    SmallNumbers(i);
    MagnitudePrint(-i, rest, anyBase);
    StrtolNegative(Digits(-i) + rest, -i, rest, anyBase);
    assert Print(i) == ['-'] + Digits(-i);
    assert (['-'] + Digits(-i)) + rest == ['-'] + (Digits(-i) + rest);
  }

  // ----- Pairs and lists -----

  /** parse_pair: the two numbers and what is left, or None if the delimiter is missing. */
  datatype Pair = Pair(first: int, second: int, rest: string)

  function ParsePair(s: string, delim: char): (r: Option<Pair>)
    ensures r.Some? ==> |r.value.rest| < |s|
  {
    var (w, end) := Strtol(s, false);
    if end == [] || end[0] != delim then None
    else
      var (h, end2) := Strtol(end[1..], false);
      Some(Pair(ToInt32(w), ToInt32(h), end2))
  }

  function PrintPair(w: int, h: int, delim: char): string {
    Print(w) + [delim] + Print(h)
  }

  /** A printed pair is read back, up to the next character that is not a digit. */
  lemma PairRoundTrip(w: int, h: int, delim: char, rest: string)
    requires Int32(w) && Int32(h) && !IsDigit(10, delim)
    requires rest == [] || !IsDigit(10, rest[0])
    ensures ParsePair(PrintPair(w, h, delim) + rest, delim) == Some(Pair(w, h, rest))
  {
    PairParts(Print(w), delim, Print(h), rest);
    var tail := [delim] + (Print(h) + rest);
    StrtolPrint(w, tail, false);
    StrtolPrint(h, rest, false);
    ParsePairIs(PrintPair(w, h, delim) + rest, delim, w, tail, h, rest);
  }

  lemma PairParts(a: string, delim: char, b: string, rest: string)
    ensures var tail := [delim] + (b + rest);
            a + [delim] + b + rest == a + tail && tail[0] == delim && tail[1..] == b + rest
  {
  }

  lemma ParsePairIs(s: string, delim: char, w: int, tail: string, h: int, rest: string)
    requires Strtol(s, false) == (w, tail) && tail != [] && tail[0] == delim
    requires Strtol(tail[1..], false) == (h, rest)
    ensures ParsePair(s, delim) == Some(Pair(ToInt32(w), ToInt32(h), rest))
  {
  }

  /** Whether the list goes on, or is over, behind a pair. */
  predicate EndsWell(p: Option<Pair>) {
    p.Some? && (p.value.rest == [] || p.value.rest[0] == ',')
  }

  /** parseSizesList: what it pushed before it returned. */
  function ParseSizes(s: string): seq<(int, int)>
    decreases |s|, 1
  {
    SizesFrom(s, ParsePair(s, 'x'))
  }

  function SizesFrom(ghost s: string, p: Option<Pair>): seq<(int, int)>
    requires p.Some? ==> |p.value.rest| < |s|
    decreases |s|, 0
  {
    if !EndsWell(p) then []
    else if p.value.rest == [] then [(p.value.first, p.value.second)]
    else [(p.value.first, p.value.second)] + ParseSizes(p.value.rest[1..])
  }

  function JoinSizes(sizes: seq<(int, int)>): string {
    if sizes == [] then ""
    else
      PrintPair(sizes[0].0, sizes[0].1, 'x')
      + if |sizes| == 1 then "" else [','] + JoinSizes(sizes[1..])
  }

  /** A comma-joined list of printed sizes is read back as that list. */
  lemma {:induction false} SizesRoundTrip(sizes: seq<(int, int)>)
    requires forall i :: 0 <= i < |sizes| ==> Int32(sizes[i].0) && Int32(sizes[i].1)
    ensures ParseSizes(JoinSizes(sizes)) == sizes
  {
    if sizes == [] {
      assert ParsePair("", 'x').None?;
    } else {
      var (w, h) := sizes[0];
      var rest := if |sizes| == 1 then "" else [','] + JoinSizes(sizes[1..]);
      var s := JoinSizes(sizes);
      assert s == PrintPair(w, h, 'x') + rest;
      PairRoundTrip(w, h, 'x', rest);
      assert ParseSizes(s) == SizesFrom(s, Some(Pair(w, h, rest)));
      if |sizes| > 1 {
        assert rest[1..] == JoinSizes(sizes[1..]);
        SizesRoundTrip(sizes[1..]);
        assert sizes == [(w, h)] + sizes[1..];
      }
    }
  }

  /** A number that is not followed by the delimiter is no pair. */
  lemma PairRefused(w: int, rest: string, delim: char)
    requires Int32(w) && (rest == [] || (!IsDigit(10, rest[0]) && rest[0] != delim))
    ensures ParsePair(Print(w) + rest, delim) == None
  {
    StrtolPrint(w, rest, false);
  }

  lemma SizesStep(w: int, h: int, rest: string)
    requires Int32(w) && Int32(h) && (rest == [] || !IsDigit(10, rest[0]))
    ensures ParseSizes(PrintPair(w, h, 'x') + rest)
         == if rest == [] then [(w, h)] else if rest[0] == ',' then [(w, h)] + ParseSizes(rest[1..]) else []
  {
    PairRoundTrip(w, h, 'x', rest);
    var s := PrintPair(w, h, 'x') + rest;
    assert ParseSizes(s) == SizesFrom(s, Some(Pair(w, h, rest)));
  }

  /** A list is read up to what is wrong: a part that is no pair ends it; a pair with the wrong
      character behind it is left out as well. */
  lemma {:induction false} SizesUpToError(sizes: seq<(int, int)>, rest: string)
    requires sizes != [] && forall i :: 0 <= i < |sizes| ==> Int32(sizes[i].0) && Int32(sizes[i].1)
    requires rest != [] && !IsDigit(10, rest[0])
    ensures rest[0] == ',' && ParsePair(rest[1..], 'x').None? ==> ParseSizes(JoinSizes(sizes) + rest) == sizes
    ensures rest[0] != ',' ==> ParseSizes(JoinSizes(sizes) + rest) == sizes[..|sizes| - 1]
  {
    var (w, h) := sizes[0];
    if |sizes| == 1 {
      JoinOne(sizes, rest);
      SizesStep(w, h, rest);
      if rest[0] == ',' && ParsePair(rest[1..], 'x').None? {
        assert ParseSizes(rest[1..]) == [];
      }
    } else {
      JoinMore(sizes, rest);
      SizesStep(w, h, [','] + (JoinSizes(sizes[1..]) + rest));
      SizesUpToError(sizes[1..], rest);
      FirstAndRest(sizes);
    }
  }

  lemma JoinOne(sizes: seq<(int, int)>, rest: string)
    requires |sizes| == 1
    ensures JoinSizes(sizes) + rest == PrintPair(sizes[0].0, sizes[0].1, 'x') + rest
    ensures sizes == [(sizes[0].0, sizes[0].1)] && sizes[..|sizes| - 1] == []
  {
  }

  lemma CommaParts(a: string, b: string, rest: string)
    ensures var more := [','] + (b + rest);
            (a + ([','] + b)) + rest == a + more && more[1..] == b + rest && more[0] == ','
  {
  }

  lemma JoinMore(sizes: seq<(int, int)>, rest: string)
    requires |sizes| > 1
    ensures var more := [','] + (JoinSizes(sizes[1..]) + rest);
            && JoinSizes(sizes) + rest == PrintPair(sizes[0].0, sizes[0].1, 'x') + more
            && more[1..] == JoinSizes(sizes[1..]) + rest && more[0] == ','
  {
    CommaParts(PrintPair(sizes[0].0, sizes[0].1, 'x'), JoinSizes(sizes[1..]), rest);
  }

  lemma FirstAndRest(sizes: seq<(int, int)>)
    requires |sizes| > 1
    ensures [(sizes[0].0, sizes[0].1)] + sizes[1..] == sizes
    ensures [(sizes[0].0, sizes[0].1)] + sizes[1..][..|sizes[1..]| - 1] == sizes[..|sizes| - 1]
  {
  }

  /** The loop of parseSizesList: every round shortens what is left. */
  method ParseSizesList(s: string) returns (sizes: seq<(int, int)>)
    ensures sizes == ParseSizes(s)
  {
    sizes := [];
    var start := s;
    while true
      invariant ParseSizes(s) == sizes + ParseSizes(start)
      decreases |start|
    {
      var p := ParsePair(start, 'x');
      assert ParseSizes(start) == SizesFrom(start, p);
      if p.None? || (p.value.rest != [] && p.value.rest[0] != ',') {
        return;
      }
      sizes := sizes + [(p.value.first, p.value.second)];
      if p.value.rest == [] {
        return;
      }
      start := p.value.rest[1..];
    }
  }

  // ----- The buffers the numbers are printed into -----

  function Pow10(k: nat): nat {
    if k == 0 then 1 else 10 * Pow10(k - 1)
  }

  lemma {:induction false} DigitsLength(n: nat, k: nat)
    requires k > 0 && n < Pow10(k)
    ensures |Digits(n)| <= k
    decreases k
  {
    if n >= 10 {
      assert Pow10(k) == 10 * Pow10(k - 1);
      DigitsLength(n / 10, k - 1);
    }
  }

  /** "%d" and "%dx%d" fit, with the terminator, the 16 and 32 characters reserved for them. */
  lemma PrintFits(w: int, h: int, delim: char)
    requires Int32(w) && Int32(h)
    ensures |Print(w)| + 1 <= 16 && |PrintPair(w, h, delim)| + 1 <= 32
  {
    assert Pow10(10) == 10_000_000_000 by {
      assert Pow10(5) == 100_000;
    }
    DigitsLength(if w < 0 then -w else w, 10);
    DigitsLength(if h < 0 then -h else h, 10);
  }
}
