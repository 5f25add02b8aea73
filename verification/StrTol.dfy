/** bionic/libc/bionic/strtol.cpp: StrToI and StrToU for any width of T. */
module StrTol {
  import opened Numerals

  datatype Errno = Unchanged | EINVAL | ERANGE

  /** Signed arithmetic in T, where going out of range would be undefined. */
  function Exact(x: int, min: int, max: int): int
    requires min <= x <= max
  {
    x
  }

  // C division truncates towards zero.
  function Quotient(x: int, y: int): int
    requires y > 0
  {
    if x >= 0 then x / y else -(-x / y)
  }

  function Remainder(x: int, y: int): int
    requires y > 0
  {
    if x >= 0 then x % y else -(-x % y)
  }

  function Clamp(x: int, min: int, max: int): int
    requires min <= max
  {
    if x < min then min else if x > max then max else x
  }

  /** The number that the longest numeral denotes, 0 if there is none. */
  ghost function Denoted(s: seq<char>, base: int): int
    requires Terminated(s) && LegalBase(base)
  {
    var p := Scan(s, base);
    var v: int := ValueOf(s[p.DigitsAt()..p.end], Radix(s, base, p));
    if Negative(s, p) then -v else v
  }

  /** Where endptr is left: the end of the longest numeral, or the start if there is none. */
  ghost function EndOf(s: seq<char>, base: int): nat
    requires Terminated(s) && LegalBase(base)
  {
    var p := Scan(s, base);
    if p.end > p.DigitsAt() then p.end else 0
  }

  /** Blanks and sign. `c` is the first character after them and `s` the index of the next. */
  method SkipSign(nptr: seq<char>) returns (neg: bool, c: char, s: nat)
    requires Terminated(nptr)
    ensures var a := SkipSpace(nptr, 0);
            && s == (if nptr[a] == '+' || nptr[a] == '-' then a + 2 else a + 1) <= |nptr| && c == nptr[s - 1]
            && neg == (nptr[a] == '-')
  {
    c, s := nptr[0], 1;
    while IsSpace(c)
      invariant 1 <= s <= |nptr| && c == nptr[s - 1] && SkipSpace(nptr, s - 1) == SkipSpace(nptr, 0)
      decreases |nptr| - s
    {
      c, s := nptr[s], s + 1;
    }
    if c == '-' {
      neg := true;
      c, s := nptr[s], s + 1;
    } else {
      neg := false;
      if c == '+' {
        c, s := nptr[s], s + 1;
      }
    }
  }

  /** The prefix after them. */
  method SkipLead(nptr: seq<char>, base: int) returns (neg: bool, c: char, s: nat, radix: nat)
    requires Terminated(nptr) && LegalBase(base)
    ensures var p := Lead(nptr, base);
            s == p.DigitsAt() + 1 && c == nptr[s - 1] && radix == Radix(nptr, base, p) && neg == Negative(nptr, p)
  {
    neg, c, s := SkipSign(nptr);
    radix := base;
    if (radix == 0 || radix == 16) && c == '0' && (nptr[s] == 'x' || nptr[s] == 'X') && IsXDigit(nptr[s + 1]) {
      c := nptr[s + 1];
      s := s + 2;
      radix := 16;
    }
    if radix == 0 {
      radix := if c == '0' then 8 else 10;
    }
  }

  /** One more digit at the end. */
  lemma ValueGrows(s: seq<char>, from: nat, to: nat, base: nat)
    requires from <= to < |s|
    ensures ValueOf(s[from..to + 1], base) == ValueOf(s[from..to], base) * base + DigitOf(s[to])
  {
    assert s[from..to + 1][..to - from] == s[from..to];
  }

  lemma ValueMonotone(v: nat, base: nat, d: nat)
    requires base >= 1
    ensures v * base + d >= v
  {
  }

  /** The cutoff test asks, without overflowing, whether one more digit would. */
  lemma CutoffBelow(acc: int, d: nat, min: int, base: nat)
    requires min < 0 && base >= 2 && d < base
    ensures var (q, r) := (Quotient(min, base), -Remainder(min, base));
            (acc < q || (acc == q && d > r)) <==> acc * base - d < min
  {
    var (q, r) := (Quotient(min, base), -Remainder(min, base));
    assert min == q * base - r && 0 <= r < base;
    if acc < q {
      assert acc * base <= (q - 1) * base;
    } else if acc > q {
      assert acc * base >= (q + 1) * base;
    }
  }

  /** One more digit of a number that is kept negative and at least `min`; -1 once it no longer fits. */
  method AddDigit(any: int, acc: int, d: nat, radix: nat, min: int, max: int, ghost v: nat)
      returns (any': int, acc': int)
    requires min == -max - 1 && max >= 0 && d < radix && radix >= 2
    requires Tracks(any, acc, v, min)
    ensures Tracks(any', acc', v * radix + d, min) && any' != 0
  {
    var cutoff, cutlim := Quotient(min, radix), -Remainder(min, radix);
    CutoffBelow(acc, d, min, radix);
    ValueMonotone(v, radix, d);
    if any < 0 {
      any', acc' := any, acc;
    } else if acc < cutoff || (acc == cutoff && d > cutlim) {
      any', acc' := -1, min;
    } else {
      any' := 1;
      acc' := Exact(acc * radix, min, max);
      acc' := Exact(acc' - d, min, max);
    }
  }

  /** `acc` is minus the digits' value `v`, or `min` after an overflow. */
  ghost predicate Tracks(any: int, acc: int, v: nat, min: int) {
    min <= acc <= 0 && if any < 0 then acc == min && min + v > 0 else acc + v == 0
  }

  /** The digit loop: where it stops and what it has accumulated, minus the number or overflowed. */
  method DigitsDown(nptr: seq<char>, c0: char, s0: nat, radix: nat, min: int, max: int)
      returns (any: int, acc: int, s: nat)
    requires Terminated(nptr) && 1 <= s0 <= |nptr| && c0 == nptr[s0 - 1] && 2 <= radix <= 36
    requires min == -max - 1 && max >= 0
    ensures s - 1 == SkipDigits(nptr, s0 - 1, radix)
    ensures Tracks(any, acc, ValueOf(nptr[s0 - 1..s - 1], radix), min) && (any == 0 <==> s == s0)
  {
    any, acc, s := 0, 0, s0;
    var c := c0;
    while true
      invariant s0 <= s <= |nptr| && c == nptr[s - 1]
      invariant SkipDigits(nptr, s - 1, radix) == SkipDigits(nptr, s0 - 1, radix)
      invariant Tracks(any, acc, ValueOf(nptr[s0 - 1..s - 1], radix), min) && (any == 0 <==> s == s0)
      decreases |nptr| - s
    {
      var d := DigitOf(c);
      if d >= radix {
        break;
      }
      ValueGrows(nptr, s0 - 1, s - 1, radix);
      any, acc := AddDigit(any, acc, d, radix, min, max, ValueOf(nptr[s0 - 1..s - 1], radix));
      c, s := nptr[s], s + 1;
    }
  }

  method GiveSign(neg: bool, any: int, acc: int, min: int, max: int, ghost x: int) returns (value: int, errno: Errno)
    requires min == -max - 1 && max >= 0
    requires (if neg then x <= 0 else x >= 0) && Tracks(any, acc, if neg then -x else x, min)
    ensures value == Clamp(x, min, max) && errno == if min <= x <= max then Unchanged else ERANGE
  {
    errno := if any < 0 then ERANGE else Unchanged;
    value := acc;
    if !neg {
      if acc == min {
        errno := ERANGE;
        value := max;
      } else {
        value := Exact(-acc, min, max);
      }
    }
  }

  lemma ParsedAs(s: seq<char>, base: int, neg: bool, start: nat, end: nat, radix: nat)
    requires Terminated(s) && LegalBase(base)
    requires start == Lead(s, base).DigitsAt() && radix == Radix(s, base, Lead(s, base))
    requires neg == Negative(s, Lead(s, base))
    requires end == SkipDigits(s, start, radix)
    ensures ValueOf(s[start..end], radix) == if neg then -Denoted(s, base) else Denoted(s, base)
    ensures EndOf(s, base) == if start < end then end else 0
  {
  }

  method ReadDown(nptr: seq<char>, base: int, min: int, max: int) returns (neg: bool, any: int, acc: int, endptr: nat)
    requires Terminated(nptr) && LegalBase(base) && min == -max - 1 && max >= 0
    ensures if neg then Denoted(nptr, base) <= 0 else Denoted(nptr, base) >= 0
    ensures Tracks(any, acc, if neg then -Denoted(nptr, base) else Denoted(nptr, base), min)
    ensures endptr == EndOf(nptr, base)
  {
    var c, s0, radix, s;
    neg, c, s0, radix := SkipLead(nptr, base);
    any, acc, s := DigitsDown(nptr, c, s0, radix, min, max);
    ParsedAs(nptr, base, neg, s0 - 1, s - 1, radix);
    endptr := if any != 0 then s - 1 else 0;
  }

  method StrToI(nptr: seq<char>, base: int, min: int, max: int) returns (value: int, endptr: nat, errno: Errno)
    requires Terminated(nptr) && min == -max - 1 && max >= 0
    ensures !LegalBase(base) ==> value == 0 && endptr == 0 && errno == EINVAL
    ensures LegalBase(base) ==>
      && value == Clamp(Denoted(nptr, base), min, max)
      && endptr == EndOf(nptr, base)
      && errno == if min <= Denoted(nptr, base) <= max then Unchanged else ERANGE
  {
    if base < 0 || base == 1 || base > 36 {
      return 0, 0, EINVAL;
    }
    var neg, any, acc;
    neg, any, acc, endptr := ReadDown(nptr, base, min, max);
    value, errno := GiveSign(neg, any, acc, min, max, Denoted(nptr, base));
  }

  // ---------------------------------------------------------------- unsigned

  /** `acc` is the digits' value `v`, or `max` after an overflow. */
  ghost predicate TracksUp(any: int, acc: int, v: nat, max: nat) {
    0 <= acc <= max && if any < 0 then acc == max && v > max else acc == v
  }

  lemma CutoffAbove(acc: int, d: nat, max: nat, base: nat)
    requires base >= 2 && d < base
    ensures (acc > max / base || (acc == max / base && d > max % base)) <==> acc * base + d > max
  {
    var (q, r) := (max / base, max % base);
    assert max == q * base + r;
    if acc > q {
      assert acc * base >= (q + 1) * base;
    } else if acc < q {
      assert acc * base <= (q - 1) * base;
    }
  }

  method AddDigitUp(any: int, acc: int, d: nat, radix: nat, max: nat, ghost v: nat) returns (any': int, acc': int)
    requires d < radix && radix >= 2 && TracksUp(any, acc, v, max)
    ensures TracksUp(any', acc', v * radix + d, max) && any' != 0
  {
    CutoffAbove(acc, d, max, radix);
    ValueMonotone(v, radix, d);
    if any < 0 {
      any', acc' := any, acc;
    } else if acc > max / radix || (acc == max / radix && d > max % radix) {
      any', acc' := -1, max;
    } else {
      any' := 1;
      acc' := Exact(acc * radix, 0, max);
      acc' := Exact(acc' + d, 0, max);
    }
  }

  method DigitsUp(nptr: seq<char>, c0: char, s0: nat, radix: nat, max: nat) returns (any: int, acc: int, s: nat)
    requires Terminated(nptr) && 1 <= s0 <= |nptr| && c0 == nptr[s0 - 1] && 2 <= radix <= 36
    ensures s - 1 == SkipDigits(nptr, s0 - 1, radix)
    ensures TracksUp(any, acc, ValueOf(nptr[s0 - 1..s - 1], radix), max) && (any == 0 <==> s == s0)
  {
    any, acc, s := 0, 0, s0;
    var c := c0;
    while true
      invariant s0 <= s <= |nptr| && c == nptr[s - 1]
      invariant SkipDigits(nptr, s - 1, radix) == SkipDigits(nptr, s0 - 1, radix)
      invariant TracksUp(any, acc, ValueOf(nptr[s0 - 1..s - 1], radix), max) && (any == 0 <==> s == s0)
      decreases |nptr| - s
    {
      var d := DigitOf(c);
      if d >= radix {
        break;
      }
      ValueGrows(nptr, s0 - 1, s - 1, radix);
      any, acc := AddDigitUp(any, acc, d, radix, max, ValueOf(nptr[s0 - 1..s - 1], radix));
      c, s := nptr[s], s + 1;
    }
  }

  method ReadUp(nptr: seq<char>, base: int, max: nat) returns (neg: bool, any: int, acc: int, endptr: nat)
    requires Terminated(nptr) && LegalBase(base)
    ensures if neg then Denoted(nptr, base) <= 0 else Denoted(nptr, base) >= 0
    ensures TracksUp(any, acc, if neg then -Denoted(nptr, base) else Denoted(nptr, base), max)
    ensures endptr == EndOf(nptr, base) && (any == 0 ==> acc == 0)
  {
    var c, s0, radix, s;
    neg, c, s0, radix := SkipLead(nptr, base);
    any, acc, s := DigitsUp(nptr, c, s0, radix, max);
    ParsedAs(nptr, base, neg, s0 - 1, s - 1, radix);
    endptr := if any != 0 then s - 1 else 0;
  }

  /** Conversion to an unsigned type whose largest value is `max`. */
  function Wrapped(x: int, max: int): nat
    requires -max <= x <= max
  {
    if x >= 0 then x else x + max + 1
  }

  /** A number too large in magnitude gives Max; a negative one that fits wraps around. */
  method StrToU(nptr: seq<char>, base: int, max: int) returns (value: nat, endptr: nat, errno: Errno)
    requires Terminated(nptr) && max >= 0
    ensures !LegalBase(base) ==> value == 0 && endptr == 0 && errno == EINVAL
    ensures LegalBase(base) ==>
      && endptr == EndOf(nptr, base)
      && if -max <= Denoted(nptr, base) <= max then errno == Unchanged && value == Wrapped(Denoted(nptr, base), max)
         else errno == ERANGE && value == max
  {
    if base < 0 || base == 1 || base > 36 {
      return 0, 0, EINVAL;
    }
    var neg, any, acc;
    neg, any, acc, endptr := ReadUp(nptr, base, max);
    errno := if any < 0 then ERANGE else Unchanged;
    value := if neg && any > 0 then Wrapped(-acc, max) else acc;
  }
}
