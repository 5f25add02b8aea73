/**
 * UTF-8 (section 3 of RFC 3629) as a code table and as an automaton that reads one
 * byte at a time. Bit fields are written as arithmetic; Utf8Bits relates the two.
 */
module Utf8Spec {
  type Byte = x: int | 0 <= x < 0x100
  type Char32 = x: int | 0 <= x < 0x1_0000_0000

  /** How many bytes the shortest form of a character takes; 0 beyond 21 bits. */
  function Width(c: Char32): nat {
    if c <= 0x7f then 1 else if c <= 0x7ff then 2 else if c <= 0xffff then 3 else if c <= 0x1f_ffff then 4 else 0
  }

  /** The bits that tell a first byte's width. */
  function Mark(width: nat): Byte {
    if width == 2 then 0xc0 else if width == 3 then 0xe0 else if width == 4 then 0xf0 else 0
  }

  /** One more than the largest payload of a first byte. */
  function Room(width: nat): nat {
    if width == 1 then 0x80 else if width == 2 then 0x20 else if width == 3 then 0x10 else 8
  }

  function Shift(c: Char32): Char32 { c / 64 }

  function Head(c: Char32, width: nat): Byte
    requires 1 <= width <= 4 && c < Room(width)
  {
    c + Mark(width)
  }

  function Tail(c: Char32): Byte { c % 64 + 0x80 }

  /** The shortest form of a character. */
  function Encoding(c: Char32): (s: seq<Byte>)
    ensures |s| == Width(c)
  {
    match Width(c)
    case 1 => [Head(c, 1)]
    case 2 => [Head(Shift(c), 2), Tail(c)]
    case 3 => [Head(Shift(Shift(c)), 3), Tail(Shift(c)), Tail(c)]
    case 4 => [Head(Shift(Shift(Shift(c))), 4), Tail(Shift(Shift(c))), Tail(Shift(c)), Tail(c)]
    case _ => []
  }

  /** The number of bytes that a first byte announces; 0 if it can not be first. */
  function Announced(b: Byte): nat {
    if b < 0x80 then 1 else if 0xc0 <= b < 0xe0 then 2 else if 0xe0 <= b < 0xf0 then 3 else
      if 0xf0 <= b < 0xf8 then 4 else 0
  }

  predicate Continues(b: Byte) { 0x80 <= b < 0xc0 }

  function First(b: Byte, width: nat): Char32 { b % Room(width) }

  function Join(high: Char32, b: Byte): Char32
    requires high < 0x400_0000
  {
    high * 64 + b % 64
  }

  /** The payload bits of the first k of `width` bytes, most significant first. */
  function Payload(s: seq<Byte>, width: nat, k: nat): (c: Char32)
    requires 1 <= k <= |s| && k <= 4
    ensures k == 1 ==> c < 0x80
    ensures k == 2 ==> c < 0x2000
    ensures k == 3 ==> c < 0x8_0000
  {
    if k == 1 then First(s[0], width) else Join(Payload(s, width, k - 1), s[k - 1])
  }

  /** Not a surrogate and neither 0xfffe nor 0xffff. */
  predicate Legal(c: Char32) { !(0xd800 <= c <= 0xdfff) && c != 0xfffe && c != 0xffff }

  /** An unfinished character: a first byte and some of what it announces. */
  predicate Pending(p: seq<Byte>) {
    p == [] || (|p| < Announced(p[0]) && forall i | 1 <= i < |p| :: Continues(p[i]))
  }

  datatype Step = More(pending: seq<Byte>) | Char(c: Char32) | Bad

  /** What one more byte makes of an unfinished character. */
  function Read(p: seq<Byte>, b: Byte): (r: Step)
    requires Pending(p)
    ensures r.More? ==> Pending(r.pending) && r.pending == p + [b]
  {
    var s := p + [b];
    if (p != [] && !Continues(b)) || Announced(s[0]) == 0 then Bad
    else if |s| < Announced(s[0]) then More(s)
    else
      var c := Payload(s, |s|, |s|);
      if Width(c) == |s| && Legal(c) then Char(c) else Bad
  }
}

/** The table and the automaton agree. */
module Utf8Table {
  import opened Utf8Spec

  /** The table of section 3 of RFC 3629, with the bits written as sums. */
  lemma EncodingBytes(c: Char32)
    ensures c <= 0x7f ==> Encoding(c) == [c]
    ensures 0x80 <= c <= 0x7ff ==> Encoding(c) == [0xc0 + c / 0x40, 0x80 + c % 0x40]
    ensures 0x800 <= c <= 0xffff ==>
      Encoding(c) == [0xe0 + c / 0x1000, 0x80 + c / 0x40 % 0x40, 0x80 + c % 0x40]
    ensures 0x1_0000 <= c <= 0x1f_ffff ==>
      Encoding(c) == [0xf0 + c / 0x4_0000, 0x80 + c / 0x1000 % 0x40, 0x80 + c / 0x40 % 0x40, 0x80 + c % 0x40]
    ensures c > 0x1f_ffff ==> Encoding(c) == []
  {
    assert c / 0x40 / 0x40 == c / 0x1000 && c / 0x1000 / 0x40 == c / 0x4_0000;
  }

  lemma HeadReads(c: Char32, width: nat)
    requires 1 <= width <= 4 && c < Room(width)
    ensures Announced(Head(c, width)) == width && First(Head(c, width), width) == c
  {
  }

  lemma Rejoined(c: Char32)
    ensures Continues(Tail(c)) && Join(Shift(c), Tail(c)) == c
  {
  }

  lemma FirstWrites(b: Byte)
    requires Announced(b) > 0
    ensures First(b, Announced(b)) < Room(Announced(b)) && Head(First(b, Announced(b)), Announced(b)) == b
  {
  }

  lemma Split(high: Char32, b: Byte)
    requires high < 0x400_0000 && Continues(b)
    ensures Shift(Join(high, b)) == high && Tail(Join(high, b)) == b
  {
  }

  /** A first byte with as many continuation bytes as it announces. */
  predicate Complete(s: seq<Byte>) {
    |s| > 0 && |s| == Announced(s[0]) && forall i | 1 <= i < |s| :: Continues(s[i])
  }

  lemma PayloadOut(s: seq<Byte>, width: nat)
    requires 1 <= width <= 4
    ensures |s| >= 1 ==> Payload(s, width, 1) == First(s[0], width)
    ensures |s| >= 2 ==> Payload(s, width, 2) == Join(First(s[0], width), s[1])
    ensures |s| >= 3 ==> Payload(s, width, 3) == Join(Join(First(s[0], width), s[1]), s[2])
    ensures |s| >= 4 ==> Payload(s, width, 4) == Join(Join(Join(First(s[0], width), s[1]), s[2]), s[3])
  {
    if |s| >= 3 {
      assert Payload(s, width, 3) == Join(Payload(s, width, 2), s[2]);
    }
  }

  lemma EncodingIsComplete(c: Char32)
    requires Width(c) > 0
    ensures Complete(Encoding(c)) && Payload(Encoding(c), Width(c), Width(c)) == c
  {
    PayloadOut(Encoding(c), Width(c));
    Rejoined(c);
    Rejoined(Shift(c));
    Rejoined(Shift(Shift(c)));
    match Width(c)
    case 1 => HeadReads(c, 1);
    case 2 => HeadReads(Shift(c), 2);
    case 3 => HeadReads(Shift(Shift(c)), 3);
    case 4 => HeadReads(Shift(Shift(Shift(c))), 4);
  }

  lemma CompleteWidth(s: seq<Byte>)
    requires Complete(s)
    ensures 1 <= |s| <= 4 && 1 <= Width(Payload(s, |s|, |s|)) <= |s|
  {
    PayloadOut(s, |s|);
  }

  lemma PayloadSplits(s: seq<Byte>, width: nat, k: nat)
    requires 1 <= k < |s| <= 4 && Continues(s[k])
    ensures Shift(Payload(s, width, k + 1)) == Payload(s, width, k) && Tail(Payload(s, width, k + 1)) == s[k]
  {
    Split(Payload(s, width, k), s[k]);
  }

  /** No other complete sequence of the same length has the same payload. */
  lemma CompleteIsEncoding(s: seq<Byte>)
    requires Complete(s) && Width(Payload(s, |s|, |s|)) == |s|
    ensures Encoding(Payload(s, |s|, |s|)) == s
  {
    CompleteWidth(s);
    FirstWrites(s[0]);
    if |s| >= 2 {
      PayloadSplits(s, |s|, |s| - 1);
    }
    if |s| >= 3 {
      PayloadSplits(s, |s|, |s| - 2);
    }
    if |s| >= 4 {
      PayloadSplits(s, |s|, |s| - 3);
    }
  }

  /**
   * The automaton accepts exactly the shortest forms of legal characters, each as
   * its own character: overlong forms, surrogates, 0xfffe and 0xffff are refused.
   */
  lemma ReadsExactlyEncodings(p: seq<Byte>, b: Byte, c: Char32)
    requires Pending(p)
    ensures Read(p, b) == Char(c) <==> p + [b] == Encoding(c) && Legal(c)
  {
    var s := p + [b];
    if Read(p, b) == Char(c) {
      assert Complete(s);
      CompleteIsEncoding(s);
    }
    if s == Encoding(c) {
      EncodingIsComplete(c);
    }
  }

  /** Every proper prefix of a character's encoding keeps the automaton waiting. */
  lemma PrefixesPend(c: Char32, k: nat)
    requires k < Width(c)
    ensures Pending(Encoding(c)[..k])
  {
    EncodingIsComplete(c);
  }
}

/** The source's masks and shifts are the arithmetic of Utf8Spec, stated on machine words. */
module Utf8Bits {

  lemma ByteTests(b: bv8)
    ensures b & 0x80 == 0 <==> b < 0x80
    ensures b & 0xe0 == 0xc0 <==> 0xc0 <= b < 0xe0
    ensures b & 0xf0 == 0xe0 <==> 0xe0 <= b < 0xf0
    ensures b & 0xf8 == 0xf0 <==> 0xf0 <= b < 0xf8
    ensures b & 0xc0 == 0x80 <==> 0x80 <= b < 0xc0
  {
  }

  lemma ByteMasks(b: bv8)
    ensures b & 0x7f == b % 0x80 && b & 0x1f == b % 0x20 && b & 0x0f == b % 0x10 && b & 0x07 == b % 8
    ensures b & 0x3f == b % 64
  {
  }

  lemma WordTests(c: bv32)
    ensures c & !0x7f == 0 <==> c <= 0x7f
    ensures c & !0x7ff == 0 <==> c <= 0x7ff
    ensures c & !0xffff == 0 <==> c <= 0xffff
    ensures c & !0x1f_ffff == 0 <==> c <= 0x1f_ffff
  {
  }

  lemma WordShifts(c: bv32)
    ensures c >> 6 == c / 64 && (c & 0x3f) | 0x80 == c % 64 + 0x80
    ensures c < 0x20 ==> (c & 0xff) | 0xc0 == c + 0xc0
    ensures c < 0x10 ==> (c & 0xff) | 0xe0 == c + 0xe0
    ensures c < 8 ==> (c & 0xff) | 0xf0 == c + 0xf0
  {
  }

  lemma WordJoins(high: bv32, b: bv32)
    requires high < 0x400_0000
    ensures (high << 6) | (b & 0x3f) == high * 64 + b % 64
  {
  }
}
