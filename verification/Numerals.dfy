/** What strtol(3) calls a numeral, stated on its own and as the scan that finds the longest one. */
module Numerals {

  // bionic/libc/private/bionic_ctype.h
  predicate IsSpace(c: char) { c == ' ' || '\t' <= c <= '\r' }
  predicate IsDigit(c: char) { '0' <= c <= '9' }
  predicate IsUpper(c: char) { 'A' <= c <= 'Z' }
  predicate IsAlpha(c: char) { 'A' <= c <= 'Z' || 'a' <= c <= 'z' }
  predicate IsXDigit(c: char) { '0' <= c <= '9' || 'A' <= c <= 'F' || 'a' <= c <= 'f' }

  predicate IsX(c: char) { c == 'x' || c == 'X' }

  /** The value of a digit, 36 for a character that is none in any base. */
  function DigitOf(c: char): nat {
    if IsDigit(c) then c as int - '0' as int
    else if IsAlpha(c) then 10 + c as int - (if IsUpper(c) then 'A' else 'a') as int
    else 36
  }

  /** White space is the blank, tab, newline, vertical tab, form feed and carriage return. */
  lemma SpaceTable(c: char)
    ensures IsSpace(c) <==> c in [32 as char, 9 as char, 10 as char, 11 as char, 12 as char, 13 as char]
  {
  }

  /** A digit of base 36 and its value: 0 to 9, then the letters of either case from 10 on. */
  lemma DigitTable(c: char, d: nat)
    requires d < 36
    ensures DigitOf(c) == d <==> c as int == (if d < 10 then 48 + d else 55 + d) || (d >= 10 && c as int == 87 + d)
  {
  }

  lemma XDigits(c: char)
    ensures IsXDigit(c) <==> DigitOf(c) < 16
    ensures IsX(c) ==> DigitOf(c) == 33
  {
  }

  ghost predicate AllDigits(s: seq<char>, from: nat, to: nat, base: nat)
    requires to <= |s|
  {
    forall i | from <= i < to :: DigitOf(s[i]) < base
  }

  /** The number that a string of digits denotes, most significant first. */
  ghost function ValueOf(s: seq<char>, base: nat): nat {
    if s == [] then 0 else ValueOf(s[..|s| - 1], base) * base + DigitOf(s[|s| - 1])
  }

  predicate LegalBase(base: int) { base == 0 || 2 <= base <= 36 }

  /** Blank space, an optional sign, an optional hexadecimal prefix, and digits up to `end`. */
  datatype Parts = Parts(blanks: nat, signed: bool, hex: bool, end: nat) {
    ghost function PrefixAt(): nat { if signed then blanks + 1 else blanks }
    ghost function DigitsAt(): nat { if hex then PrefixAt() + 2 else PrefixAt() }
  }

  ghost function Radix(s: seq<char>, base: int, p: Parts): nat
    requires LegalBase(base) && p.DigitsAt() < |s|
  {
    if p.hex then 16 else if base > 0 then base else if s[p.DigitsAt()] == '0' then 8 else 10
  }

  /** s[..p.end] is a numeral in base `base`, 0 meaning the base that its first characters say. */
  ghost predicate IsNumeral(s: seq<char>, base: int, p: Parts)
    requires LegalBase(base)
  {
    && p.DigitsAt() < p.end <= |s|
    && (forall i | 0 <= i < p.blanks :: IsSpace(s[i]))
    && (p.signed ==> s[p.blanks] == '+' || s[p.blanks] == '-')
    && (p.hex ==> (base == 0 || base == 16) && s[p.PrefixAt()] == '0' && IsX(s[p.PrefixAt() + 1]))
    && AllDigits(s, p.DigitsAt(), p.end, Radix(s, base, p))
  }

  ghost predicate Negative(s: seq<char>, p: Parts)
    requires p.blanks < |s|
  {
    p.signed && s[p.blanks] == '-'
  }

  ghost predicate Terminated(s: seq<char>) { |s| > 0 && s[|s| - 1] == '\0' }

  // ---------------------------------------------------------------- the scan

  /** The first place from `i` on that is not white space. */
  ghost function SkipSpace(s: seq<char>, i: nat): (j: nat)
    requires Terminated(s) && i < |s|
    ensures i <= j < |s|
    decreases |s| - i
  {
    if IsSpace(s[i]) then SkipSpace(s, i + 1) else i
  }

  lemma {:induction false} SkipsSpace(s: seq<char>, i: nat)
    requires Terminated(s) && i < |s|
    ensures var j := SkipSpace(s, i); !IsSpace(s[j]) && forall k | i <= k < j :: IsSpace(s[k])
    decreases |s| - i
  {
    if IsSpace(s[i]) {
      SkipsSpace(s, i + 1);
    }
  }

  /** The first place from `i` on that is not a digit of the base. */
  ghost function SkipDigits(s: seq<char>, i: nat, base: nat): (j: nat)
    requires Terminated(s) && i < |s| && base <= 36
    ensures i <= j < |s|
    decreases |s| - i
  {
    if DigitOf(s[i]) < base then SkipDigits(s, i + 1, base) else i
  }

  lemma {:induction false} SkipsDigits(s: seq<char>, i: nat, base: nat)
    requires Terminated(s) && i < |s| && base <= 36
    ensures DigitOf(s[SkipDigits(s, i, base)]) >= base && AllDigits(s, i, SkipDigits(s, i, base), base)
    decreases |s| - i
  {
    if DigitOf(s[i]) < base {
      SkipsDigits(s, i + 1, base);
    }
  }

  /** 0x with a hexadecimal digit behind it, where the base admits that. */
  ghost predicate HexAt(s: seq<char>, base: int, b: nat) {
    b + 2 < |s| && (base == 0 || base == 16) && s[b] == '0' && IsX(s[b + 1]) && IsXDigit(s[b + 2])
  }

  /** The leading part of a numeral: everything before its digits. */
  ghost function Lead(s: seq<char>, base: int): (p: Parts)
    requires Terminated(s) && LegalBase(base)
    ensures p.DigitsAt() < |s|
  {
    var a := SkipSpace(s, 0);
    var signed := s[a] == '+' || s[a] == '-';
    Parts(a, signed, HexAt(s, base, if signed then a + 1 else a), 0)
  }

  ghost function Scan(s: seq<char>, base: int): (p: Parts)
    requires Terminated(s) && LegalBase(base)
    ensures p.DigitsAt() <= p.end < |s|
  {
    var p := Lead(s, base);
    p.(end := SkipDigits(s, p.DigitsAt(), Radix(s, base, p)))
  }

  /** The scan finds a numeral if there is one at all. */
  lemma ScanIsNumeral(s: seq<char>, base: int)
    requires Terminated(s) && LegalBase(base)
    ensures var p := Scan(s, base); p.DigitsAt() < p.end ==> IsNumeral(s, base, p)
  {
    var p := Lead(s, base);
    SkipsSpace(s, 0);
    SkipsDigits(s, p.DigitsAt(), Radix(s, base, p));
  }

  lemma SameLead(s: seq<char>, base: int, q: Parts)
    requires Terminated(s) && LegalBase(base) && IsNumeral(s, base, q)
    ensures q.blanks == Lead(s, base).blanks && q.signed == Lead(s, base).signed
  {
    SkipsSpace(s, 0);
    assert DigitOf(s[q.DigitsAt()]) < Radix(s, base, q);
  }

  lemma FirstDigit(s: seq<char>, base: int, q: Parts)
    requires LegalBase(base) && IsNumeral(s, base, q) && q.hex
    ensures HexAt(s, base, q.PrefixAt())
  {
    XDigits(s[q.DigitsAt()]);
  }

  lemma StopsAtX(s: seq<char>, base: int, q: Parts)
    requires LegalBase(base) && IsNumeral(s, base, q) && !q.hex && HexAt(s, base, q.PrefixAt())
    ensures q.end == q.PrefixAt() + 1
  {
    XDigits(s[q.DigitsAt() + 1]);
  }

  /** Reading the prefix as digits gives only the 0 before the x. */
  lemma PrefixWins(s: seq<char>, base: int, q: Parts)
    requires Terminated(s) && LegalBase(base) && IsNumeral(s, base, q)
    requires q.hex != Lead(s, base).hex && q.blanks == Lead(s, base).blanks && q.signed == Lead(s, base).signed
    ensures Lead(s, base).hex && q.end == q.PrefixAt() + 1
  {
    if q.hex {
      FirstDigit(s, base, q);
    } else {
      StopsAtX(s, base, q);
    }
  }

  lemma PrefixHasDigit(s: seq<char>, base: int)
    requires Terminated(s) && LegalBase(base) && Lead(s, base).hex
    ensures Scan(s, base).end > Lead(s, base).DigitsAt()
  {
    XDigits(s[Lead(s, base).DigitsAt()]);
  }

  lemma DigitsReach(s: seq<char>, from: nat, to: nat, base: nat)
    requires Terminated(s) && from < to <= |s| && base <= 36 && AllDigits(s, from, to, base)
    ensures SkipDigits(s, from, base) >= to
  {
    SkipsDigits(s, from, base);
  }

  /** It is the longest one, and the only one of that length. */
  lemma ScanIsLongest(s: seq<char>, base: int, q: Parts)
    requires Terminated(s) && LegalBase(base) && IsNumeral(s, base, q)
    ensures var p := Scan(s, base); p.DigitsAt() < p.end && q.end <= p.end && (q.end == p.end ==> q == p)
  {
    var l := Lead(s, base);
    SameLead(s, base, q);
    if q.hex == l.hex {
      assert q.DigitsAt() == l.DigitsAt() && Radix(s, base, q) == Radix(s, base, l);
      DigitsReach(s, l.DigitsAt(), q.end, Radix(s, base, l));
    } else {
      PrefixWins(s, base, q);
      PrefixHasDigit(s, base);
    }
  }
}
