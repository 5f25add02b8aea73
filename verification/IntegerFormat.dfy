/** bionic/libc/async_safe/async_safe_log.cpp: the integer printer, and strtol undoing it. */
module IntegerFormat {
  import opened Numerals
  import opened StrTol

  const SIZE_MAX := 0xffff_ffff_ffff_ffff
  const INT64_MAX := 0x7fff_ffff_ffff_ffff

  function DigitChar(d: nat, caps: bool): char
    requires d < 36
  {
    if d < 10 then '0' + d as char else (if caps then 'A' else 'a') + (d - 10) as char
  }

  /** The digits of a number, least significant first; none for 0. */
  function Low(v: nat, base: nat, caps: bool): seq<char>
    requires 2 <= base <= 36
    decreases v
  {
    if v == 0 then [] else [DigitChar(v % base, caps)] + Low(v / base, base, caps)
  }

  lemma LowStep(d: nat, rest: nat, base: nat, caps: bool, s: seq<char>, k: nat)
    requires 2 <= base <= 36 && k <= |s| && d < base && [DigitChar(d, caps)] + Low(rest, base, caps) == s[k..]
    ensures k < |s| && s[k] == DigitChar(d, caps) && Low(rest, base, caps) == s[k + 1..]
  {
    assert s[k..][1..] == s[k + 1..];
  }

  lemma Shrinks(v: nat, d: nat, rest: nat, base: nat)
    requires v == rest * base + d && v > 0 && base >= 2
    ensures rest < v
  {
    assert rest * base >= rest * 2;
  }

  lemma Division(v: nat, base: nat) returns (d: nat, rest: nat)
    requires v > 0 && base >= 2
    ensures d == v % base && rest == v / base && d < base && v == rest * base + d
  {
    d, rest := v % base, v / base;
  }

  lemma LowUnfolds(v: nat, base: nat, caps: bool)
    requires 2 <= base <= 36 && v > 0
    ensures Low(v, base, caps) == [DigitChar(v % base, caps)] + Low(v / base, base, caps)
  {
  }

  lemma SplitOff(v: nat, base: nat, caps: bool) returns (d: nat, rest: nat)
    requires 2 <= base <= 36 && v > 0
    ensures d == v % base && rest == v / base
    ensures d < base && rest < v && v == rest * base + d
    ensures Low(v, base, caps) == [DigitChar(d, caps)] + Low(rest, base, caps)
  {
    d, rest := Division(v, base);
    Shrinks(v, d, rest, base);
    LowUnfolds(v, base, caps);
  }

  ghost function Reversed(s: seq<char>): (r: seq<char>)
    ensures |r| == |s| && forall i | 0 <= i < |s| :: r[i] == s[|s| - 1 - i]
  {
    if s == [] then [] else Reversed(s[1..]) + [s[0]]
  }

  /** The numeral for `v`: its digits, or a single 0. */
  ghost function Printed(v: nat, base: nat, caps: bool): seq<char>
    requires 2 <= base <= 36
  {
    if v == 0 then "0" else Reversed(Low(v, base, caps))
  }

  /**
   * Digits in reverse order, as many as fit before the last place. Without any place the
   * last one is the one before the first, and the first digit is out of bounds.
   */
  method PutDigits(buf: array<char>, at: nat, size: nat, value: nat, base: nat, caps: bool)
      returns (p: nat, inBounds: bool)
    requires at + size <= buf.Length && 2 <= base <= 36
    modifies buf
    ensures inBounds <==> size > 0 || value == 0
    ensures size == 0 ==> p == at
    ensures var (s, end) := (Low(value, base, caps), at + size - 1);
            size > 0 ==>
              && at <= p <= end && p - at <= |s| && (p == end || p - at == |s|)
              && forall i | at <= i < p :: buf[i] == s[i - at]
    ensures forall i | 0 <= i < buf.Length && !(at <= i < p) :: buf[i] == old(buf[i])
  {
    var end := at + size - 1;
    p := at;
    var v: nat := value;
    ghost var s := Low(value, base, caps);
    ghost var k: nat := 0;
    while v > 0
      invariant k <= |s| && Low(v, base, caps) == s[k..]
      invariant (if size == 0 then p == at && v == value else at <= p <= end)
      invariant p - at <= k && (p == end || p - at == k) && forall i | at <= i < p :: buf[i] == s[i - at]
      invariant forall i | 0 <= i < buf.Length && !(at <= i < p) :: buf[i] == old(buf[i])
    {
      var d, rest := v % base, v / base;
      var _, _ := SplitOff(v, base, caps);
      LowStep(d, rest, base, caps, s, k);
      v := rest;
      k := k + 1;
      if p != end {
        if p == at + size {
          return p, false;
        }
        buf[p] := DigitChar(d, caps);
        p := p + 1;
      }
    }
    inBounds := true;
  }

  /**
   * Reversal in place. The index of the last character is a size_t: with no
   * characters it is SIZE_MAX, and the first access is out of bounds.
   */
  method ReverseAt(buf: array<char>, at: nat, length: nat) returns (inBounds: bool)
    requires at + length <= buf.Length < SIZE_MAX
    modifies buf
    ensures inBounds <==> length > 0
    ensures inBounds ==> forall k | at <= k < at + length :: buf[k] == old(buf[2 * at + length - 1 - k])
    ensures forall i | 0 <= i < buf.Length && !(at <= i < at + length) :: buf[i] == old(buf[i])
  {
    var i, j := 0, if length == 0 then SIZE_MAX else length - 1;
    while i < j
      invariant length == 0 ==> i == 0 && j == SIZE_MAX
      invariant length > 0 ==> i <= j + 1 && i + j == length - 1
      invariant forall k | at <= k < at + length && (k < at + i || k > at + j) ::
        buf[k] == old(buf[2 * at + length - 1 - k])
      invariant forall k | 0 <= k < buf.Length && (k < at || at + i <= k <= at + j || k >= at + length) ::
        buf[k] == old(buf[k])
    {
      if at + j >= buf.Length {
        return false;
      }
      var ch := buf[at + i];
      buf[at + i] := buf[at + j];
      buf[at + j] := ch;
      i, j := i + 1, j - 1;
    }
    inBounds := true;
  }

  /** How many characters of the numeral fit in front of the terminator. */
  ghost function Fitting(v: nat, base: nat, caps: bool, size: nat): nat
    requires 2 <= base <= 36 && size > 0
  {
    if |Printed(v, base, caps)| < size then |Printed(v, base, caps)| else size - 1
  }

  /** The buffer holds the text and its terminator. */
  ghost predicate Holds(buf: array<char>, at: nat, text: seq<char>)
    reads buf
  {
    at + |text| < buf.Length && (forall i | at <= i < at + |text| :: buf[i] == text[i - at]) && buf[at + |text|] == '\0'
  }

  /**
   * The buffer gets the numeral and a terminator; of a numeral that is too long
   * it gets the least significant digits. With room for the terminator only, the
   * reversal leaves the buffer, and with no room at all the first character does.
   */
  method FormatUnsigned(buf: array<char>, at: nat, size: nat, value: nat, base: nat, caps: bool)
      returns (inBounds: bool)
    requires at + size <= buf.Length < SIZE_MAX && 2 <= base <= 36
    modifies buf
    ensures inBounds <==> size > 1
    ensures inBounds ==>
      var (t, n) := (Printed(value, base, caps), Fitting(value, base, caps, size));
      && (forall i | at <= i < at + n :: buf[i] == t[|t| - n + i - at]) && buf[at + n] == '\0'
      && (|t| < size ==> Holds(buf, at, t))
    ensures forall i | 0 <= i < buf.Length && !(at <= i < at + size) :: buf[i] == old(buf[i])
  {
    var end := at + size - 1;
    var p;
    p, inBounds := PutDigits(buf, at, size, value, base, caps);
    if !inBounds {
      return;
    }
    if p == at {
      if p != end {
        if p == at + size {
          return false;
        }
        buf[p] := '0';
        p := p + 1;
      }
    }
    buf[p] := '\0';
    inBounds := ReverseAt(buf, at, p - at);
  }

  predicate SignedConversion(conversion: char) { conversion == 'd' || conversion == 'i' || conversion == 'o' }

  function BaseOf(conversion: char): nat {
    if conversion == 'x' || conversion == 'X' then 16 else if conversion == 'o' then 8 else 10
  }

  /** The int64_t with the bits of a uint64_t. */
  function AsInt64(value: nat): int { if value > INT64_MAX then value - SIZE_MAX - 1 else value }

  /** The number that the conversion prints. */
  function Meant(value: nat, conversion: char): int {
    if SignedConversion(conversion) then AsInt64(value) else value
  }

  ghost function Text(x: int, base: nat, caps: bool): seq<char>
    requires 2 <= base <= 36
  {
    if x < 0 then "-" + Printed(-x, base, caps) else Printed(x, base, caps)
  }

  method FormatNegative(buf: array<char>, at: nat, size: nat, magnitude: nat, base: nat, caps: bool)
      returns (inBounds: bool)
    requires at + size <= buf.Length < SIZE_MAX && 2 <= base <= 36
    modifies buf
    ensures inBounds <==> size > 2
    ensures var t := Printed(magnitude, base, caps); inBounds && |t| + 1 < size ==> Holds(buf, at, "-" + t)
    ensures forall i | 0 <= i < buf.Length && !(at <= i < at + size) :: buf[i] == old(buf[i])
  {
    if size == 0 {
      return false;
    }
    buf[at] := '-';
    inBounds := FormatUnsigned(buf, at + 1, size - 1, magnitude, base, caps);
  }

  /** With or without a sign. */
  method FormatSigned(buf: array<char>, at: nat, size: nat, negative: bool, magnitude: nat, base: nat, caps: bool,
                      ghost text: seq<char>)
      returns (inBounds: bool)
    requires at + size <= buf.Length < SIZE_MAX && 2 <= base <= 36
    requires text == (if negative then "-" else "") + Printed(magnitude, base, caps)
    modifies buf
    ensures inBounds <==> size > if negative then 2 else 1
    ensures inBounds && |text| < size ==> Holds(buf, at, text)
    ensures forall i | 0 <= i < buf.Length && !(at <= i < at + size) :: buf[i] == old(buf[i])
  {
    if negative {
      inBounds := FormatNegative(buf, at, size, magnitude, base, caps);
    } else {
      assert text == Printed(magnitude, base, caps);
      inBounds := FormatUnsigned(buf, at, size, magnitude, base, caps);
    }
  }

  /** Negating the most negative integer is undefined, so it is not among the arguments. */
  method FormatInteger(buf: array<char>, at: nat, size: nat, value: nat, conversion: char) returns (inBounds: bool)
    requires value <= SIZE_MAX && Meant(value, conversion) != -INT64_MAX - 1
    requires at + size <= buf.Length < SIZE_MAX
    modifies buf
    ensures inBounds <==> size > if Meant(value, conversion) < 0 then 2 else 1
    ensures var t := Text(Meant(value, conversion), BaseOf(conversion), conversion == 'X');
            inBounds && |t| < size ==> Holds(buf, at, t)
    ensures forall i | 0 <= i < buf.Length && !(at <= i < at + size) :: buf[i] == old(buf[i])
  {
    var base, caps := BaseOf(conversion), conversion == 'X';
    ghost var _, text := TextOf(Meant(value, conversion), base, caps);
    if SignedConversion(conversion) && AsInt64(value) < 0 {
      inBounds := FormatSigned(buf, at, size, true, -AsInt64(value), base, caps, text);
    } else {
      inBounds := FormatSigned(buf, at, size, false, value, base, caps, text);
    }
  }

  // ---------------------------------------------------------------- sizes that are too small, and that are not

  /** 7 into one byte, and -7 into two. */
  method LeavesTheBuffer() returns (one: bool, two: bool)
    ensures !one && !two
  {
    var buf := new char[2](_ => ' ');
    one := FormatUnsigned(buf, 0, 1, 7, 10, false);
    two := FormatInteger(buf, 0, 2, SIZE_MAX - 6, 'd');
  }

  ghost function Octal(k: nat): nat { if k == 0 then 1 else 8 * Octal(k - 1) }

  lemma EighthAtMost(v: nat, d: nat, rest: nat, base: nat, bound: nat)
    requires v == rest * base + d && base >= 8 && v < 8 * bound
    ensures rest < bound
  {
    assert rest * base >= rest * 8;
  }

  lemma OctalDigits()
    ensures Octal(22) > SIZE_MAX
  {
    assert Octal(4) == 0x1000;
    assert Octal(8) == 0x100_0000;
    assert Octal(12) == 0x10_0000_0000;
    assert Octal(16) == 0x1_0000_0000_0000;
    assert Octal(20) == 0x1000_0000_0000_0000;
  }

  lemma {:induction false} LowLength(v: nat, base: nat, caps: bool, k: nat)
    requires 8 <= base <= 36 && v < Octal(k)
    ensures |Low(v, base, caps)| <= k
    decreases v
  {
    if v > 0 {
      var d, rest := SplitOff(v, base, caps);
      EighthAtMost(v, d, rest, base, Octal(k - 1));
      LowLength(rest, base, caps, k - 1);
    }
  }

  lemma PrintedLength(v: nat, base: nat, caps: bool)
    requires 8 <= base <= 36 && v <= SIZE_MAX
    ensures |Printed(v, base, caps)| <= 22
  {
    OctalDigits();
    LowLength(v, base, caps, 22);
  }

  /** The bytes that both functions are given for any number, sign and terminator included. */
  const ENOUGH: nat := 30

  /** With as many bytes as the callers provide, every number is printed completely. */
  lemma TextFits(value: nat, conversion: char)
    requires value <= SIZE_MAX
    ensures |Text(Meant(value, conversion), BaseOf(conversion), conversion == 'X')| < ENOUGH
  {
    var x := Meant(value, conversion);
    PrintedLength(if x < 0 then -x else x, BaseOf(conversion), conversion == 'X');
  }

  method FormatIntegerAmply(buf: array<char>, at: nat, size: nat, value: nat, conversion: char)
    requires value <= SIZE_MAX && Meant(value, conversion) != -INT64_MAX - 1
    requires ENOUGH <= size && at + size <= buf.Length < SIZE_MAX
    modifies buf
    ensures Holds(buf, at, Text(Meant(value, conversion), BaseOf(conversion), conversion == 'X'))
    ensures forall i | 0 <= i < buf.Length && !(at <= i < at + size) :: buf[i] == old(buf[i])
  {
    TextFits(value, conversion);
    var inBounds := FormatInteger(buf, at, size, value, conversion);
  }

  // ---------------------------------------------------------------- round trips

  lemma DigitCharReads(d: nat, caps: bool)
    requires d < 36
    ensures var c := DigitChar(d, caps); DigitOf(c) == d && !IsSpace(c) && c != '+' && c != '-'
  {
  }

  /** A string of digits of the base, and not of characters that a numeral may start with. */
  ghost predicate PlainDigits(s: seq<char>, base: nat) {
    forall i | 0 <= i < |s| :: DigitOf(s[i]) < base && !IsSpace(s[i]) && s[i] != '+' && s[i] != '-'
  }

  lemma {:induction false} LowReads(v: nat, base: nat, caps: bool)
    requires 2 <= base <= 36
    ensures PlainDigits(Low(v, base, caps), base) && ValueOf(Reversed(Low(v, base, caps)), base) == v
    ensures v > 0 ==> Low(v, base, caps) != []
    decreases v
  {
    if v > 0 {
      var d, rest := SplitOff(v, base, caps);
      LowReads(rest, base, caps);
      LowReadsOn(Low(v, base, caps), d, Low(rest, base, caps), rest, base, caps);
    }
  }

  lemma LowReadsOn(s: seq<char>, d: nat, t: seq<char>, rest: nat, base: nat, caps: bool)
    requires d < base <= 36 && s == [DigitChar(d, caps)] + t && PlainDigits(t, base)
    requires ValueOf(Reversed(t), base) == rest
    ensures PlainDigits(s, base) && ValueOf(Reversed(s), base) == rest * base + d
  {
    DigitCharReads(d, caps);
    ReadBack(s, DigitChar(d, caps), t, base);
  }

  lemma ReadBack(s: seq<char>, c: char, t: seq<char>, base: nat)
    requires s == [c] + t
    ensures ValueOf(Reversed(s), base) == ValueOf(Reversed(t), base) * base + DigitOf(c)
  {
    assert s[1..] == t;
    assert Reversed(s)[..|t|] == Reversed(t);
  }

  lemma PrintedReads(v: nat, base: nat, caps: bool)
    requires 2 <= base <= 36
    ensures var t := Printed(v, base, caps); |t| > 0 && PlainDigits(t, base) && ValueOf(t, base) == v
  {
    if v == 0 {
      assert "0"[..0] == [];
    } else {
      LowReads(v, base, caps);
    }
  }

  function Dashes(neg: bool): nat { if neg then 1 else 0 }

  /** `s` begins with the digits `t`, after a minus sign if `neg`, and their terminator. */
  ghost predicate Written(s: seq<char>, neg: bool, t: seq<char>) {
    var d := Dashes(neg);
    && Terminated(s) && |s| > d + |t| && s[d + |t|] == '\0'
    && (neg ==> s[0] == '-')
    && forall i | d <= i < d + |t| :: s[i] == t[i - d]
  }

  lemma LeadIsDash(s: seq<char>, neg: bool, t: seq<char>, base: nat)
    requires 2 <= base <= 36 && |t| > 0 && PlainDigits(t, base) && Written(s, neg, t)
    ensures var p := Lead(s, base); p.blanks == 0 && p.signed == neg && !p.hex
  {
    var d := Dashes(neg);
    assert s[d] == t[0];
    assert |t| > 1 ==> s[d + 1] == t[1];
    XDigits(s[d + 1]);
  }

  lemma LeadReads(s: seq<char>, neg: bool, t: seq<char>, base: nat) returns (p: Parts)
    requires 2 <= base <= 36 && |t| > 0 && PlainDigits(t, base) && Written(s, neg, t)
    ensures p == Lead(s, base) && p.DigitsAt() == Dashes(neg) && Radix(s, base, p) == base && Negative(s, p) == neg
  {
    LeadIsDash(s, neg, t, base);
    p := Lead(s, base);
  }

  lemma ReachesTerminator(s: seq<char>, neg: bool, t: seq<char>, base: nat)
    requires 2 <= base <= 36 && PlainDigits(t, base) && Written(s, neg, t)
    ensures SkipDigits(s, Dashes(neg), base) == Dashes(neg) + |t| && s[Dashes(neg)..Dashes(neg) + |t|] == t
  {
    SkipsDigits(s, Dashes(neg), base);
  }

  /** A signed string of digits is read as the number it denotes, up to its terminator. */
  lemma ReadsAsWritten(s: seq<char>, neg: bool, t: seq<char>, base: nat)
    requires 2 <= base <= 36 && |t| > 0 && PlainDigits(t, base) && Written(s, neg, t)
    ensures EndOf(s, base) == Dashes(neg) + |t|
    ensures ValueOf(t, base) == if neg then -Denoted(s, base) else Denoted(s, base)
  {
    var _ := LeadReads(s, neg, t, base);
    ReachesTerminator(s, neg, t, base);
    ParsedAs(s, base, neg, Dashes(neg), Dashes(neg) + |t|, base);
  }

  /** Memory in which a string begins with the text. */
  ghost predicate Begins(s: seq<char>, text: seq<char>) {
    Terminated(s) && |text| < |s| && (forall i | 0 <= i < |text| :: s[i] == text[i]) && s[|text|] == '\0'
  }

  /** The parsers read the text, wherever it is, as the number `x` and stop at its terminator. */
  ghost predicate Reads(text: seq<char>, base: nat, x: int)
    requires 2 <= base <= 36
  {
    forall s | Begins(s, text) :: Denoted(s, base) == x && EndOf(s, base) == |text|
  }

  /** strtoul and strtol read back what format_unsigned prints. */
  lemma UnsignedRoundTrip(v: nat, base: nat, caps: bool)
    requires 2 <= base <= 36
    ensures Reads(Printed(v, base, caps), base, v)
  {
    var t := Printed(v, base, caps);
    PrintedReads(v, base, caps);
    forall s | Begins(s, t) ensures Denoted(s, base) == v && EndOf(s, base) == |t| {
      ReadsAsWritten(s, false, t, base);
    }
  }

  /** strtol reads back what format_integer prints for a negative number. */
  lemma NegativeRoundTrip(v: nat, base: nat, caps: bool)
    requires 2 <= base <= 36
    ensures Reads("-" + Printed(v, base, caps), base, -(v as int))
  {
    var t := Printed(v, base, caps);
    PrintedReads(v, base, caps);
    forall s | Begins(s, "-" + t) ensures Denoted(s, base) == -(v as int) && EndOf(s, base) == |t| + 1 {
      NegativeWritten(s, t);
      ReadsAsWritten(s, true, t, base);
    }
  }

  lemma NegativeWritten(s: seq<char>, t: seq<char>)
    requires Begins(s, "-" + t)
    ensures Written(s, true, t)
  {
    var u := "-" + t;
    assert s[0] == u[0] == '-';
    forall i | 1 <= i < 1 + |t| ensures s[i] == t[i - 1] {
      assert s[i] == u[i];
    }
  }

  lemma TextOf(x: int, base: nat, caps: bool) returns (v: nat, text: seq<char>)
    requires 2 <= base <= 36
    ensures text == Text(x, base, caps) && v == (if x < 0 then -x else x)
    ensures text == if x < 0 then "-" + Printed(v, base, caps) else Printed(v, base, caps)
    ensures text == (if x < 0 then "-" else "") + Printed(v, base, caps)
  {
    v, text := if x < 0 then -x else x, Text(x, base, caps);
  }

  lemma TextReads(x: int, base: nat, caps: bool) returns (text: seq<char>)
    requires 2 <= base <= 36
    ensures text == Text(x, base, caps) && Reads(text, base, x)
  {
    var v;
    v, text := TextOf(x, base, caps);
    if x < 0 {
      NegativeRoundTrip(v, base, caps);
    } else {
      UnsignedRoundTrip(v, base, caps);
    }
  }

  /** The uint64_t with the bits of an int64_t. */
  function Bits(x: int): nat
    requires -0x8000_0000_0000_0000 <= x < 0x8000_0000_0000_0000
  {
    if x < 0 then x + 0x1_0000_0000_0000_0000 else x
  }

  lemma {:induction false} LowCase(v: nat, base: nat, caps: bool)
    requires 2 <= base <= 36
    ensures forall i | 0 <= i < |Low(v, base, caps)| :: InCase(Low(v, base, caps)[i], caps)
    decreases v
  {
    if v > 0 {
      var _, rest := SplitOff(v, base, caps);
      LowCase(rest, base, caps);
    }
  }

  lemma TextCase(v: nat, base: nat, caps: bool, text: seq<char>)
    requires 2 <= base <= 36 && text == Text(v, base, caps)
    ensures forall i | 0 <= i < |text| :: InCase(text[i], caps)
  {
    LowCase(v, base, caps);
  }

  predicate InCase(c: char, caps: bool) {
    '0' <= c <= '9' || if caps then 'A' <= c <= 'Z' else 'a' <= c <= 'z'
  }

  /** Printing an int64_t with %d, %i or %o and parsing the buffer, in base 10 or 8, gives it back. */
  method PrintThenParse(buf: array<char>, n: int, conversion: char, base: int)
      returns (x: int, endptr: nat, errno: Errno)
    requires -0x8000_0000_0000_0000 < n < 0x8000_0000_0000_0000 && ENOUGH < buf.Length < SIZE_MAX
    requires ((conversion == 'd' || conversion == 'i') && base == 10) || (conversion == 'o' && base == 8)
    modifies buf
    ensures x == n && errno == Unchanged && endptr < buf.Length && buf[endptr] == '\0'
  {
    ghost var text := TextReads(n, base, false);
    Print(buf, Bits(n), conversion, text);
    x, endptr, errno := StrToI(buf[..], base, -INT64_MAX - 1, INT64_MAX);
  }

  /** Printing a uint64_t with %u, %x or %X and parsing the buffer, in base 10 or 16, gives it back. */
  method PrintThenParseUnsigned(buf: array<char>, n: nat, conversion: char, base: int)
      returns (x: nat, endptr: nat, errno: Errno)
    requires n < 0x1_0000_0000_0000_0000 && ENOUGH < buf.Length < SIZE_MAX
    requires (conversion == 'u' && base == 10) || ((conversion == 'x' || conversion == 'X') && base == 16)
    modifies buf
    ensures x == n && errno == Unchanged && endptr < buf.Length && buf[endptr] == '\0'
    ensures forall i | 0 <= i < endptr :: InCase(buf[i], conversion == 'X')
  {
    ghost var caps := conversion == 'X';
    ghost var text := TextReads(n, base, caps);
    TextCase(n, base, caps, text);
    Print(buf, n, conversion, text);
    x, endptr, errno := StrToU(buf[..], base, SIZE_MAX);
  }

  method Print(buf: array<char>, value: nat, conversion: char, ghost text: seq<char>)
    requires value <= SIZE_MAX && Meant(value, conversion) != -INT64_MAX - 1 && ENOUGH < buf.Length < SIZE_MAX
    requires text == Text(Meant(value, conversion), BaseOf(conversion), conversion == 'X')
    modifies buf
    ensures Begins(buf[..], text)
  {
    buf[buf.Length - 1] := '\0';
    FormatIntegerAmply(buf, 0, buf.Length - 1, value, conversion);
  }
}
