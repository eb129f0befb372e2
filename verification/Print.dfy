/**
  Formatting a number (lib/print.c). The digits are written backwards into a buffer, the sign and the padding
  after them, and the buffer is reversed in place, all of it or, when left-adjusted, only sign and digits.
  What comes out is a function on sequences, and parsing it gives the number back.
 */
module PrintNumber {

  const PAD_ZERO := '0'
  const MAXU := 0x1_0000_0000

  // ---- digits ----

  function Digit(d: int, upcase: bool): (c: char)
    requires 0 <= d < 16
    ensures DigitValue(c) == d && c != ' ' && c != '-'
  {
    if d <= 9 then '0' + d as char else if upcase then 'A' + (d - 10) as char else 'a' + (d - 10) as char
  }

  function DigitValue(c: char): int {
    if '0' <= c <= '9' then c as int - '0' as int
    else if 'a' <= c <= 'f' then c as int - 'a' as int + 10
    else if 'A' <= c <= 'F' then c as int - 'A' as int + 10
    else 0
  }

  predicate Base(base: int) { base == 2 || base == 8 || base == 10 || base == 16 }

  /** The digits, lowest first, as the loop writes them. */
  function Backwards(u: int, base: int, upcase: bool): (s: string)
    requires u >= 0 && Base(base)
    ensures |s| >= 1
    decreases u
  {
    [Digit(u % base, upcase)] + if u / base == 0 then [] else Backwards(u / base, base, upcase)
  }

  function Reversed(s: string): (r: string)
    ensures |r| == |s| && forall i :: 0 <= i < |s| ==> r[i] == s[|s| - 1 - i]
  {
    if s == [] then [] else Reversed(s[1..]) + [s[0]]
  }

  function Digits(u: int, base: int, upcase: bool): string
    requires u >= 0 && Base(base)
  { Reversed(Backwards(u, base, upcase)) }

  function Pow2(k: nat): int { if k == 0 then 1 else 2 * Pow2(k - 1) }

  /** A number below 2^k has at most k digits. */
  lemma {:induction false} FewDigits(u: int, base: int, upcase: bool, k: nat)
    requires 0 <= u < Pow2(k) && Base(base) && k >= 1
    ensures |Backwards(u, base, upcase)| <= k
    decreases k
  {
    if u / base != 0 {
      assert u / base <= u / 2;
      FewDigits(u / base, base, upcase, k - 1);
    }
  }

  // ---- the whole output ----

  function Rep(c: char, n: int): (s: string)
    ensures |s| == (if n < 0 then 0 else n) && forall i :: 0 <= i < |s| ==> s[i] == c
  {
    seq(if n < 0 then 0 else n, i => c)
  }

  function Sign(neg: bool): string { if neg then "-" else "" }

  /** The sign, then the digits; padded on the right with spaces, or between sign and digits with zeros, or
      on the left. */
  function Render(u: int, base: int, neg: bool, length: int, ladjust: bool, padc: char, upcase: bool): (s: string)
    requires u >= 0 && Base(base)
  {
    var ds := Digits(u, base, upcase);
    RenderOf(ds, neg, Rep(if ladjust then ' ' else padc, length - |ds| - |Sign(neg)|), ladjust, padc)
  }

  // ---- the method ----

  /** The in-place reversal of the first `n` characters. */
  method ReverseFirst(buf: array<char>, n: int)
    requires 0 <= n <= buf.Length
    modifies buf
    ensures buf[..] == Reversed(old(buf[..n])) + old(buf[n..])
  {
    var begin, end := 0, n - 1;
    while end > begin
      invariant 0 <= begin && begin + end == n - 1
      invariant forall k :: 0 <= k < begin ==> buf[k] == old(buf[n - 1 - k]) && buf[n - 1 - k] == old(buf[k])
      invariant forall k :: begin <= k <= end ==> buf[k] == old(buf[k])
      invariant buf[n..] == old(buf[n..])
    {
      buf[begin], buf[end] := buf[end], buf[begin];
      begin, end := begin + 1, end - 1;
    }
  }

  /** The do-while loop: the digits of `u`, lowest first. */
  method WriteDigits(buf: array<char>, u0: int, base: int, upcase: bool) returns (p: int)
    requires 0 <= u0 && Base(base) && |Backwards(u0, base, upcase)| <= buf.Length
    modifies buf
    ensures p == |Backwards(u0, base, upcase)| && buf[..p] == Backwards(u0, base, upcase)
  {
    ghost var all := Backwards(u0, base, upcase);
    var u, more := u0, true;
    p := 0;
    while more
      invariant 0 <= p <= |all| && u >= 0
      invariant buf[..p] == all[..p] && all[p..] == if more then Backwards(u, base, upcase) else []
      decreases more, u
    {
      var d := u % base;
      buf[p] := if d <= 9 then '0' + d as char else if upcase then 'A' + (d - 10) as char else 'a' + (d - 10) as char;
      assert all[p..][1..] == all[p + 1..];
      assert all[..p + 1] == all[..p] + [all[p]];
      p := p + 1;
      u := u / base;
      more := u != 0;
    }
  }

  /** buf[from..to] becomes padding; what the buffer holds up to `to` is what it held, and the padding. */
  method Fill(buf: array<char>, from: int, to: int, c: char)
    requires 0 <= from <= to <= buf.Length
    modifies buf
    ensures buf[..to] == old(buf[..from]) + Rep(c, to - from)
  {
    var i := from;
    while i < to
      invariant from <= i <= to && buf[..i] == old(buf[..from]) + Rep(c, i - from)
    {
      buf[i] := c;
      i := i + 1;
      assert buf[..i] == buf[..i - 1] + [c];
      assert Rep(c, i - from) == Rep(c, i - 1 - from) + [c];
    }
  }

  /** The buffer before the reversal: digits backwards, sign and padding. */
  function Before(u: int, base: int, neg: bool, length: int, ladjust: bool, padc: char, upcase: bool): (s: string)
    requires u >= 0 && Base(base)
  {
    var b := Backwards(u, base, upcase);
    BeforeOf(b, neg, Rep(if ladjust then ' ' else padc, length - |b| - |Sign(neg)|), ladjust, padc)
  }

  lemma Pow2Is()
    ensures Pow2(32) == MAXU
  {
    assert Pow2(4) == 16;
    assert Pow2(8) == 0x100;
    assert Pow2(12) == 0x1000;
    assert Pow2(16) == 0x1_0000;
    assert Pow2(20) == 0x10_0000;
    assert Pow2(24) == 0x100_0000;
    assert Pow2(28) == 0x1000_0000;
  }

  /** The buffer up to the reversal: `p` characters of number, `length` in all. */
  method WriteBefore(buf: array<char>, u: int, base: int, neg: bool, length0: int, ladjust: bool, padc0: char,
                     upcase: bool)
    returns (p: int, length: int)
    requires 0 <= u < MAXU && Base(base) && length0 >= 0 && buf.Length == length0 + 70
    modifies buf
    ensures p == |Backwards(u, base, upcase)| + |Sign(neg)|
    ensures length == (if length0 < p then p else length0) <= buf.Length
    ensures buf[..length] == Before(u, base, neg, length0, ladjust, padc0, upcase)
  {
    Pow2Is();
    FewDigits(u, base, upcase, 32);
    hide Backwards, Rep;
    length := length0;
    var padc := padc0;
    p := WriteDigits(buf, u, base, upcase);
    ghost var b := Backwards(u, base, upcase);
    ghost var n := p;
    if neg {
      buf[p] := '-';
      p := p + 1;
    }
    assert buf[..n] == b && buf[..p] == b + Sign(neg);
    if length < p { length := p; }
    if ladjust { padc := ' '; }
    PadSame(padc, length, length0, p);
    if neg && !ladjust && padc == '0' {
      Fill(buf, p - 1, length - 1, padc);
      buf[length - 1] := '-';
      assert buf[..length] == buf[..length - 1] + "-";
    } else {
      Fill(buf, p, length, padc);
    }
  }

  /** print_num: what it hands to the output function. */
  method PrintNum(u: int, base: int, neg: bool, length0: int, ladjust: bool, padc0: char, upcase: bool)
    returns (out: string)
    requires 0 <= u < MAXU && Base(base) && length0 >= 0
    ensures out == Render(u, base, neg, length0, ladjust, padc0, upcase)
  {
    hide Before, Render, Backwards, Rep, Reversed;
    var buf := new char[length0 + 70];
    var p, length := WriteBefore(buf, u, base, neg, length0, ladjust, padc0, upcase);
    var count := if ladjust then p else length;
    ghost var whole := buf[..];
    Slices(buf, whole, count, length);
    Taken(whole, Reversed(whole[..count]), count, length);
    ReverseFirst(buf, count);
    out := buf[..length];
    Slices(buf, buf[..], count, length);
    Turned(u, base, neg, length0, ladjust, padc0, upcase, count);
  }

  lemma Slices(buf: array<char>, s: string, count: int, length: int)
    requires s == buf[..] && 0 <= count <= length <= buf.Length
    ensures buf[..count] == s[..count] && buf[count..] == s[count..] && buf[..length] == s[..length]
  {}

  lemma Taken(s: string, r: string, count: int, length: int)
    requires 0 <= count <= length <= |s| && |r| == count
    ensures (r + s[count..])[..length] == r + s[..length][count..] && s[..length][..count] == s[..count]
  {}

  lemma PadSame(c: char, length: int, length0: int, p: int)
    requires length == if length0 < p then p else length0
    ensures Rep(c, length - p) == Rep(c, length0 - p)
  {}

  lemma {:induction false} ReversedJoin(a: string, b: string)
    ensures Reversed(a + b) == Reversed(b) + Reversed(a)
  {
    var l, r := Reversed(a + b), Reversed(b) + Reversed(a);
    forall i | 0 <= i < |l| ensures l[i] == r[i] {}
  }

  lemma ReversedRep(c: char, n: int)
    ensures Reversed(Rep(c, n)) == Rep(c, n)
  {}

  lemma Turned(u: int, base: int, neg: bool, length: int, ladjust: bool, padc: char, upcase: bool, count: int)
    requires u >= 0 && Base(base)
    requires var n := |Backwards(u, base, upcase)| + |Sign(neg)|;
             count == if ladjust || length < n then n else length
    ensures var s := Before(u, base, neg, length, ladjust, padc, upcase);
            count <= |s| && Reversed(s[..count]) + s[count..] == Render(u, base, neg, length, ladjust, padc, upcase)
  {
    hide Backwards, Reversed, Rep, Before, Render;
    Shapes(u, base, neg, length, ladjust, padc, upcase);
    var b := Backwards(u, base, upcase);
    var pad := Rep(if ladjust then ' ' else padc, length - |b| - |Sign(neg)|);
    assert Before(u, base, neg, length, ladjust, padc, upcase) == BeforeOf(b, neg, pad, ladjust, padc);
    if ladjust {
      TurnedLeft(b, Sign(neg), pad);
    } else {
      AllOf(Before(u, base, neg, length, ladjust, padc, upcase), count);
      if neg && padc == PAD_ZERO { TurnedZeros(b, pad); } else { TurnedRight(b, Sign(neg), pad); }
    }
  }

  /** Buffer and output are made of the same three strings. */
  lemma Shapes(u: int, base: int, neg: bool, length: int, ladjust: bool, padc: char, upcase: bool)
    requires u >= 0 && Base(base)
    ensures var b := Backwards(u, base, upcase);
            var pad := Rep(if ladjust then ' ' else padc, length - |b| - |Sign(neg)|);
            && Reversed(Sign(neg)) == Sign(neg) && Reversed(pad) == pad
            && |pad| == (if length < |b| + |Sign(neg)| then 0 else length - |b| - |Sign(neg)|)
            && Before(u, base, neg, length, ladjust, padc, upcase) == BeforeOf(b, neg, pad, ladjust, padc)
            && Render(u, base, neg, length, ladjust, padc, upcase) == RenderOf(Reversed(b), neg, pad, ladjust, padc)
  {
    hide Backwards, Reversed, Rep, BeforeOf, RenderOf;
    ReversedRep(if ladjust then ' ' else padc, length - |Backwards(u, base, upcase)| - |Sign(neg)|);
    ReversedShort();
  }

  function BeforeOf(b: string, neg: bool, pad: string, ladjust: bool, padc: char): string {
    if neg && !ladjust && padc == PAD_ZERO then b + pad + "-" else b + Sign(neg) + pad
  }

  function RenderOf(ds: string, neg: bool, pad: string, ladjust: bool, padc: char): string {
    if ladjust then Sign(neg) + ds + pad
    else if neg && padc == PAD_ZERO then Sign(neg) + pad + ds else pad + Sign(neg) + ds
  }

  lemma AllOf(s: string, n: int)
    requires n == |s|
    ensures s[..n] == s && s[n..] == "" && Reversed(s) + "" == Reversed(s)
  {}

  lemma TurnedLeft(b: string, sign: string, pad: string)
    requires Reversed(sign) == sign
    ensures var s := b + sign + pad; var n := |b| + |sign|;
            Reversed(s[..n]) + s[n..] == sign + Reversed(b) + pad
  {
    var s := b + sign + pad;
    assert s[..|b| + |sign|] == b + sign && s[|b| + |sign|..] == pad;
    ReversedJoin(b, sign);
  }

  lemma TurnedRight(b: string, sign: string, pad: string)
    requires Reversed(sign) == sign && Reversed(pad) == pad
    ensures Reversed(b + sign + pad) == pad + sign + Reversed(b)
  {
    ReversedJoin(b + sign, pad);
    ReversedJoin(b, sign);
    JoinThree(pad, sign, Reversed(b));
  }

  lemma JoinThree(a: string, b: string, c: string)
    ensures a + (b + c) == a + b + c
  {}

  lemma ReversedShort()
    ensures Reversed("") == "" && Reversed("-") == "-"
  {}

  lemma TurnedZeros(b: string, zs: string)
    requires Reversed(zs) == zs
    ensures Reversed(b + zs + "-") == "-" + zs + Reversed(b)
  {
    ReversedJoin(b + zs, "-");
    ReversedJoin(b, zs);
    ReversedShort();
    JoinThree("-", zs, Reversed(b));
  }

  // ---- reading it back ----

  function Value(ds: string, base: int): int {
    if ds == "" then 0 else Value(ds[..|ds| - 1], base) * base + DigitValue(ds[|ds| - 1])
  }

  function StripLeft(s: string): string { if s != "" && s[0] == ' ' then StripLeft(s[1..]) else s }
  function StripRight(s: string): string { if s != "" && s[|s| - 1] == ' ' then StripRight(s[..|s| - 1]) else s }

  datatype Number = Number(neg: bool, u: int)

  /** Padding off, then a sign, then the digits. */
  function Parse(s: string, base: int): Number {
    var t := StripRight(StripLeft(s));
    if t != "" && t[0] == '-' then Number(true, Value(t[1..], base)) else Number(false, Value(t, base))
  }

  predicate IsDigit(c: char, base: int, upcase: bool) {
    || ('0' <= c <= '9' && DigitValue(c) < base)
    || (base == 16 && if upcase then 'A' <= c <= 'F' else 'a' <= c <= 'f')
  }

  /** A numeral: digits of the base, letters in the case asked for, no zero in front but in "0". */
  predicate Numeral(s: string, base: int, upcase: bool) {
    s != "" && (s[0] == '0' ==> |s| == 1) && forall i :: 0 <= i < |s| ==> IsDigit(s[i], base, upcase)
  }

  lemma Quotient(u: int, v: int, d: int, base: int)
    requires Base(base) && 0 <= d < base && u == v * base + d
    ensures u / base == v && u % base == d
  {}

  lemma {:induction false} NumeralValue(s: string, base: int, upcase: bool)
    requires Base(base) && Numeral(s, base, upcase)
    ensures Value(s, base) >= if s[0] == '0' then 0 else 1
  {
    var t := s[..|s| - 1];
    assert IsDigit(s[|s| - 1], base, upcase);
    if t == "" {
      assert Value(t, base) == 0;
    } else {
      NumeralValue(t, base, upcase);
    }
  }

  lemma DigitsStep(u: int, base: int, upcase: bool)
    requires u >= 0 && Base(base)
    ensures Digits(u, base, upcase) ==
      (if u / base == 0 then "" else Digits(u / base, base, upcase)) + [Digit(u % base, upcase)]
  {
    var b := Backwards(u, base, upcase);
    assert b[1..] == if u / base == 0 then [] else Backwards(u / base, base, upcase);
  }

  lemma {:induction false} DigitsNumeral(u: int, base: int, upcase: bool)
    requires u >= 0 && Base(base)
    ensures Numeral(Digits(u, base, upcase), base, upcase) && (Digits(u, base, upcase)[0] == '0' ==> u == 0)
    decreases u
  {
    DigitsStep(u, base, upcase);
    DigitIs(u % base, base, upcase);
    hide Digits, IsDigit, Digit;
    if u / base != 0 {
      DigitsNumeral(u / base, base, upcase);
    } else {
      Quotient(u, 0, u, base);
    }
  }

  lemma DigitIs(d: int, base: int, upcase: bool)
    requires Base(base) && 0 <= d < base
    ensures IsDigit(Digit(d, upcase), base, upcase) && (Digit(d, upcase) == '0' ==> d == 0)
  {}

  /** The last digit of a numeral, and the number in front of it. */
  lemma LastDigit(s: string, base: int, upcase: bool)
    requires Base(base) && Numeral(s, base, upcase)
    ensures var t, u := s[..|s| - 1], Value(s, base);
      && s == t + [Digit(u % base, upcase)] && u / base == Value(t, base) && (u / base == 0 <==> t == "")
      && (t != "" ==> Numeral(t, base, upcase))
  {
    var t, c := s[..|s| - 1], s[|s| - 1];
    assert IsDigit(c, base, upcase);
    assert Digit(DigitValue(c), upcase) == c;
    Quotient(Value(s, base), Value(t, base), DigitValue(c), base);
    if t != "" { NumeralValue(t, base, upcase); }
  }

  /** The digits of a number are its one numeral. */
  lemma {:induction false} OneNumeral(s: string, u: int, base: int, upcase: bool)
    requires u >= 0 && Base(base)
    ensures Numeral(s, base, upcase) && Value(s, base) == u <==> s == Digits(u, base, upcase)
    decreases |s|
  {
    DigitsNumeral(u, base, upcase);
    ValueDigits(u, base, upcase);
    hide Digits, Value, Digit, IsDigit;
    if Numeral(s, base, upcase) && Value(s, base) == u {
      LastDigit(s, base, upcase);
      DigitsStep(u, base, upcase);
      if u / base != 0 { OneNumeral(s[..|s| - 1], u / base, base, upcase); }
    }
  }

  /** Where the digits, the sign and the padding are. */
  lemma Layout(u: int, base: int, neg: bool, length: int, ladjust: bool, padc: char, upcase: bool)
    requires u >= 0 && Base(base)
    ensures var out, ds := Render(u, base, neg, length, ladjust, padc, upcase), Digits(u, base, upcase);
      var sign := if neg then 1 else 0;
      var at := if ladjust then sign else |out| - |ds|;
      var dash := if ladjust || padc == PAD_ZERO then 0 else at - 1;
      && 0 <= at <= at + |ds| <= |out| && out[at..at + |ds|] == ds
      && (neg ==> 0 <= dash < at && out[dash] == '-')
      && forall i :: 0 <= i < |out| && !(at <= i < at + |ds|) && !(neg && i == dash) ==>
           out[i] == if ladjust then ' ' else padc
  {
    hide Digits;
  }

  /** The length: the width asked for, or what sign and digits need. */
  lemma RenderLength(u: int, base: int, neg: bool, length: int, ladjust: bool, padc: char, upcase: bool)
    requires u >= 0 && Base(base)
    ensures var n := |Digits(u, base, upcase)| + |Sign(neg)|;
            |Render(u, base, neg, length, ladjust, padc, upcase)| == if length > n then length else n
  {}

  lemma {:induction false} ValueDigits(u: int, base: int, upcase: bool)
    requires u >= 0 && Base(base)
    ensures Value(Digits(u, base, upcase), base) == u
    decreases u
  {
    var b := Backwards(u, base, upcase);
    var ds := Digits(u, base, upcase);
    assert ds == Reversed(b[1..]) + [b[0]];
    assert ds[..|ds| - 1] == Reversed(b[1..]);
    if u / base == 0 {
      assert b[1..] == [];
    } else {
      assert b[1..] == Backwards(u / base, base, upcase);
      ValueDigits(u / base, base, upcase);
    }
  }

  lemma {:induction false} LeadingZeros(n: int, ds: string, base: int)
    ensures Value(Rep('0', n) + ds, base) == Value(ds, base)
    decreases |ds|, if n < 0 then 0 else n
  {
    var s := Rep('0', n) + ds;
    if ds != "" {
      assert s[..|s| - 1] == Rep('0', n) + ds[..|ds| - 1];
      LeadingZeros(n, ds[..|ds| - 1], base);
    } else if n > 0 {
      assert s[..|s| - 1] == Rep('0', n - 1) + "";
      LeadingZeros(n - 1, "", base);
    }
  }

  lemma {:induction false} StripLeftPad(n: int, t: string)
    requires t != "" && t[0] != ' '
    ensures StripLeft(Rep(' ', n) + t) == t
    decreases if n < 0 then 0 else n
  {
    var s := Rep(' ', n) + t;
    if n > 0 {
      assert s[1..] == Rep(' ', n - 1) + t;
      StripLeftPad(n - 1, t);
    } else {
      assert s == t;
    }
  }

  lemma {:induction false} StripRightPad(n: int, t: string)
    requires t != "" && t[|t| - 1] != ' '
    ensures StripRight(t + Rep(' ', n)) == t
    decreases if n < 0 then 0 else n
  {
    var s := t + Rep(' ', n);
    if n > 0 {
      assert s[..|s| - 1] == t + Rep(' ', n - 1);
      StripRightPad(n - 1, t);
    } else {
      assert s == t;
    }
  }

  lemma DigitEnds(u: int, base: int, upcase: bool)
    requires u >= 0 && Base(base)
    ensures var ds := Digits(u, base, upcase);
            ds != "" && ds[0] != ' ' && ds[0] != '-' && ds[|ds| - 1] != ' ' && Value(ds, base) == u
  {
    DigitsNumeral(u, base, upcase);
    ValueDigits(u, base, upcase);
    hide Digits, Value;
  }

  lemma ZerosInFront(n: int, ds: string)
    requires ds != "" && ds[0] != ' ' && ds[0] != '-' && ds[|ds| - 1] != ' '
    ensures var t := Rep('0', n) + ds; t != "" && t[0] != ' ' && t[0] != '-' && t[|t| - 1] != ' '
    ensures "" + ds == ds
  {}

  /** Padding stripped and the rest parsed, the output gives back the sign flag and the number. */
  lemma RoundTrip(u: int, base: int, neg: bool, length: int, ladjust: bool, padc: char, upcase: bool)
    requires u >= 0 && Base(base) && (padc == ' ' || padc == PAD_ZERO)
    ensures Parse(Render(u, base, neg, length, ladjust, padc, upcase), base) == Number(neg, u)
  {
    hide Digits, Rep, Value, Parse, Render;
    var ds := Digits(u, base, upcase);
    var pad := length - |Sign(neg)| - |ds|;
    DigitEnds(u, base, upcase);
    LeadingZeros(pad, ds, base);
    ZerosInFront(pad, ds);
    RenderParts(u, base, neg, length, ladjust, padc, upcase);
    var zs := if !ladjust && padc == PAD_ZERO then Rep('0', pad) else "";
    ParseParts(neg, zs + ds, if !ladjust && padc == ' ' then pad else 0, if ladjust then pad else 0, base);
  }

  lemma RenderParts(u: int, base: int, neg: bool, length: int, ladjust: bool, padc: char, upcase: bool)
    requires u >= 0 && Base(base) && (padc == ' ' || padc == PAD_ZERO)
    ensures var ds := Digits(u, base, upcase); var pad := length - |Sign(neg)| - |ds|;
            var zs := if !ladjust && padc == PAD_ZERO then Rep('0', pad) else "";
            var l := if !ladjust && padc == ' ' then pad else 0; var r := if ladjust then pad else 0;
            Render(u, base, neg, length, ladjust, padc, upcase) == Rep(' ', l) + (Sign(neg) + (zs + ds)) + Rep(' ', r)
  {
    var ds := Digits(u, base, upcase);
    var pad := length - |Sign(neg)| - |ds|;
    assert Rep(' ', 0) == "";
    hide Digits, Rep;
    Layouts(Sign(neg), ds, if ladjust then Rep(' ', pad) else Rep(padc, pad));
  }

  lemma Layouts(sign: string, ds: string, pad: string)
    ensures "" + (sign + ("" + ds)) + pad == sign + ds + pad
    ensures "" + (sign + (pad + ds)) + "" == sign + pad + ds
    ensures pad + (sign + ("" + ds)) + "" == pad + sign + ds
    ensures sign == "" ==> sign + pad + ds == pad + sign + ds
  {}

  lemma ParseParts(neg: bool, ds: string, l: int, r: int, base: int)
    requires ds != "" && ds[0] != ' ' && ds[0] != '-' && ds[|ds| - 1] != ' ' && (l <= 0 || r <= 0)
    ensures Parse(Rep(' ', l) + (Sign(neg) + ds) + Rep(' ', r), base) == Number(neg, Value(ds, base))
  {
    var core := Sign(neg) + ds;
    Stripped(core, l, r);
    assert if neg then core[1..] == ds else core == ds;
    hide Value, StripLeft, StripRight;
  }

  lemma Stripped(core: string, l: int, r: int)
    requires core != "" && core[0] != ' ' && core[|core| - 1] != ' ' && (l <= 0 || r <= 0)
    ensures StripRight(StripLeft(Rep(' ', l) + core + Rep(' ', r))) == core
  {
    var t := core + Rep(' ', r);
    assert Rep(' ', l) + core + Rep(' ', r) == Rep(' ', l) + t;
    StripLeftPad(l, t);
    StripRightPad(r, core);
  }
}
