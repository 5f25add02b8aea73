/** Conversion keeps the meaning of text and can be resumed anywhere. */
module IconvProof {
  import opened Common
  import opened Utf8Spec
  import opened Utf8Feed
  import T = Utf8Text
  import T8 = Utf8Table
  import opened Pouring
  import opened IconvSpec
  import I = Iconv

  /** A character of text: not NUL, not a surrogate, neither 0xfffe nor 0xffff, at most 0x10ffff. */
  predicate Scalar(c: Char32) { 1 <= c <= 0x10_ffff && Legal(c) }

  /** Text that the charset can express. */
  ghost predicate Text(e: Charset, cs: seq<Char32>) {
    forall i | 0 <= i < |cs| :: Scalar(cs[i]) && Code(e, cs[i]).Ok?
  }

  /** The characters' bytes, one character after the other. */
  ghost function Codes(e: Charset, cs: seq<Char32>): (a: seq<seq<Byte>>)
    requires Text(e, cs)
    ensures |a| == |cs| && forall i | 0 <= i < |cs| :: a[i] == Code(e, cs[i]).bytes
  {
    if cs == [] then [] else [Code(e, cs[0]).bytes] + Codes(e, cs[1..])
  }

  ghost function Bytes(e: Charset, cs: seq<Char32>): seq<Byte>
    requires Text(e, cs)
  {
    Flat(Codes(e, cs))
  }

  // ---------------------------------------------------------------- one character

  /**
   * What the UTF-16 charsets write: a unit, or two units in the charset's byte order, which stand
   * for the character exactly if it is one that two units can stand for.
   */
  lemma UnitsWritten(c: Char32) returns (u: int, w: int)
    ensures c < 0x1_0000 ==> Code(Utf16Le, c) == Ok([c % 0x100, c / 0x100])
    ensures c < 0x1_0000 ==> Code(Utf16Be, c) == Ok([c / 0x100, c % 0x100])
    ensures c >= 0x1_0000 ==>
      && 0xd800 <= u <= 0xffff && 0xdc00 <= w < 0xe000
      && Code(Utf16Le, c) == Ok([u % 0x100, u / 0x100, w % 0x100, w / 0x100])
      && Code(Utf16Be, c) == Ok([u / 0x100, u % 0x100, w / 0x100, w % 0x100])
      && (c <= 0x10_ffff <==> u < 0xdc00 && 0x1_0000 + (u - 0xd800) * 0x400 + (w - 0xdc00) == c)
  {
    u, w := 0, 0;
    if c >= 0x1_0000 {
      u, w := HighSurrogate((c - 0x1_0000) / 0x400), 0xdc00 + (c - 0x1_0000) % 0x400;
      assert c <= 0x10_ffff ==> u == 0xd800 + (c - 0x1_0000) / 0x400;
    }
  }

  /** The number whose bytes are given, least significant first. */
  function Number2(b0: int, b1: int): int { b0 + 0x100 * b1 }

  function Number4(b0: int, b1: int, b2: int, b3: int): int { b0 + 0x100 * b1 + 0x1_0000 * b2 + 0x100_0000 * b3 }

  predicate Gives(r: Next, wc: int, used: nat) { r.Got? && r.wc == wc && r.used == used }

  /** What unit `u` stands for, with unit `w` if there are `n` bytes and that is four or more. */
  predicate UnitsStandFor(u: int, w: int, n: nat, r: Next) {
    if u < 0xd800 || u > 0xdfff then Gives(r, u, 2)
    else if u >= 0xdc00 then r == Fail(EILSEQ)
    else if n < 4 then r == Fail(EINVAL)
    else Gives(r, 0x1_0000 + (u - 0xd800) * 0x400 + (w - 0xdc00), 4)
  }

  /** What the UTF-16 charsets read. */
  lemma UnitsRead(s: seq<Byte>)
    requires s != []
    ensures |s| == 1 ==> GetNext(Utf16Le, s) == GetNext(Utf16Be, s) == Fail(EINVAL)
    ensures |s| >= 2 ==>
      var w := if |s| < 4 then 0 else Number2(s[2], s[3]);
      UnitsStandFor(Number2(s[0], s[1]), w, |s|, GetNext(Utf16Le, s))
    ensures |s| >= 2 ==>
      var w := if |s| < 4 then 0 else Number2(s[3], s[2]);
      UnitsStandFor(Number2(s[1], s[0]), w, |s|, GetNext(Utf16Be, s))
  {
  }

  /** What the UTF-32 charsets and wchar_t read: four bytes in their order, whatever they are. */
  lemma WordsRead(s: seq<Byte>)
    requires s != []
    ensures |s| < 4 ==> GetNext(Utf32Le, s) == GetNext(Utf32Be, s) == GetNext(WcharT, s) == Fail(EINVAL)
    ensures |s| >= 4 ==>
      && GetNext(Utf32Le, s) == GetNext(WcharT, s)
      && Gives(GetNext(Utf32Le, s), Number4(s[0], s[1], s[2], s[3]), 4)
      && Gives(GetNext(Utf32Be, s), Number4(s[3], s[2], s[1], s[0]), 4)
  {
  }

  /** What they write. */
  lemma WordsWritten(c: Char32)
    ensures var b := Code(Utf32Le, c);
      && b == Code(WcharT, c) && b.Ok? && |b.bytes| == 4
      && Number4(b.bytes[0], b.bytes[1], b.bytes[2], b.bytes[3]) == c
      && Code(Utf32Be, c) == Ok([b.bytes[3], b.bytes[2], b.bytes[1], b.bytes[0]])
  {
    var (b, d) := (c / 0x100, c / 0x1_0000);
    assert c == c % 0x100 + 0x100 * b && b == b % 0x100 + 0x100 * d && d == d % 0x100 + 0x100 * (c / 0x100_0000);
  }

  /** US-ASCII is the bytes up to 0x7f, and UTF-8 is the encoding. */
  lemma BytesReadAndWritten(c: Char32, s: seq<Byte>)
    requires s != []
    ensures Code(UsAscii, c) == if c <= 0x7f then Ok([c]) else NotCoded
    ensures GetNext(UsAscii, s) == if s[0] <= 0x7f then Got(s[0], 1) else Fail(EILSEQ)
    ensures Code(Utf8, c) == if c <= 0x1f_ffff then Ok(Encoding(c)) else NotCoded
  {
  }

  lemma Reads16(c: Char32, rest: seq<Byte>, swap: bool)
    requires Scalar(c)
    ensures GetNext16(Code16(c, swap) + rest, swap) == Got(c, |Code16(c, swap)|)
  {
    if c >= 0x1_0000 {
      var (hi, lo) := (HighSurrogate((c - 0x1_0000) / 0x400), 0xdc00 + (c - 0x1_0000) % 0x400);
      assert hi == 0xd800 + (c - 0x1_0000) / 0x400 < 0xdc00;
      assert Combine(hi, lo) == c;
    }
  }

  lemma Reads32(c: Char32, rest: seq<Byte>, swap: bool)
    ensures GetNext32(Out32(c, swap) + rest, swap) == Got(c, 4)
  {
    var (b, d) := (c / 0x100, c / 0x1_0000);
    assert c == c % 0x100 + 0x100 * b && b == b % 0x100 + 0x100 * d && d == d % 0x100 + 0x100 * (c / 0x100_0000);
  }

  lemma Reads8(c: Char32, rest: seq<Byte>)
    requires Scalar(c)
    ensures GetNext(Utf8, Encoding(c) + rest) == Got(c, Width(c))
  {
    T.FeedEncoding(c, 0, rest);
    assert Encoding(c)[..0] == [] && Encoding(c)[0..] == Encoding(c);
  }

  /** Reading is a left inverse of writing, in every charset. */
  lemma ReadsBack(e: Charset, c: Char32, rest: seq<Byte>)
    requires Scalar(c) && Code(e, c).Ok?
    ensures GetNext(e, Code(e, c).bytes + rest) == Got(c, |Code(e, c).bytes|)
  {
    match e
    case UsAscii =>
    case Utf8 => Reads8(c, rest);
    case Utf16Le => Reads16(c, rest, false);
    case Utf16Be => Reads16(c, rest, true);
    case Utf32Le => Reads32(c, rest, false);
    case Utf32Be => Reads32(c, rest, true);
    case WcharT => Reads32(c, rest, false);
  }

  // ---------------------------------------------------------------- whole texts

  lemma Takes(from: Charset, to: Charset, c: Char32, rest: seq<Byte>)
    requires Scalar(c) && Code(from, c).Ok? && Code(to, c).Ok?
    ensures Take(from, to, Code(from, c).bytes + rest) == Took(Code(to, c).bytes, |Code(from, c).bytes|)
  {
    ReadsBack(from, c, rest);
  }

  // ---------------------------------------------------------------- theorems

  lemma TextTaken(from: Charset, to: Charset, cs: seq<Char32>)
    requires Text(from, cs) && Text(to, cs)
    ensures TakesAll(Taker(from, to), Codes(from, cs), Codes(to, cs))
  {
    forall i | 0 <= i < |cs| ensures TakesPiece(Taker(from, to), Codes(from, cs)[i], Codes(to, cs)[i]) {
      forall rest ensures Taker(from, to)(Codes(from, cs)[i] + rest) == Took(Codes(to, cs)[i], |Codes(from, cs)[i]|) {
        Takes(from, to, cs[i], rest);
      }
    }
  }

  /**
   * The output encodes exactly the characters of the consumed bytes: as many of the
   * text as fit, whole ones. Only if all of them fit does what follows the text matter.
   */
  lemma ConvertsText(from: Charset, to: Charset, cs: seq<Char32>, rest: seq<Byte>, last: Stop, room: nat)
    requires Text(from, cs) && Text(to, cs) && StopsWith(Taker(from, to), rest, last)
    ensures Run(Taker(from, to), Bytes(from, cs) + rest, 0, room)
         == Converted(0, Codes(from, cs), Codes(to, cs), Fit(Codes(to, cs), room), last)
  {
    var s := Bytes(from, cs) + rest;
    assert s[0..] == s;
    TextTaken(from, to, cs);
    RunsPieces(Taker(from, to), Codes(from, cs), Codes(to, cs), rest, last, s, 0, room);
  }

  // ---------------------------------------------------------------- input in pieces

  lemma {:induction false} UnfinishedFeed(c: Char32, k: nat, j: nat)
    requires j <= k < Width(c)
    ensures Pending(Encoding(c)[..j]) && Feed(Encoding(c)[..j], Encoding(c)[j..k]) == Fed(More(Encoding(c)[..k]), k - j)
    decreases k - j
  {
    T8.PrefixesPend(c, j);
    T8.PrefixesPend(c, k);
    var (p, rest) := (Encoding(c)[..j], Encoding(c)[j..k]);
    if j < k {
      T.StillPends(c, j);
      UnfinishedFeed(c, k, j + 1);
      assert rest[1..] == Encoding(c)[j + 1..k] && rest[0] == Encoding(c)[j];
    }
  }

  /** Of a character that has not arrived completely nothing is taken. */
  lemma CutCharacter(from: Charset, to: Charset, c: Char32, k: nat)
    requires Scalar(c) && Code(from, c).Ok? && 0 < k < |Code(from, c).bytes|
    ensures Take(from, to, Code(from, c).bytes[..k]) == Halt(EINVAL)
  {
    var s := Code(from, c).bytes[..k];
    match from
    case Utf8 =>
      UnfinishedFeed(c, k, 0);
      assert Encoding(c)[..0] == [] && Encoding(c)[0..k] == s;
    case Utf16Le => Cut16(c, k, false);
    case Utf16Be => Cut16(c, k, true);
    case _ =>
  }

  lemma Cut16(c: Char32, k: nat, swap: bool)
    requires Scalar(c) && 0 < k < |Code16(c, swap)|
    ensures GetNext16(Code16(c, swap)[..k], swap) == Fail(EINVAL)
  {
    if k >= 2 {
      var hi := HighSurrogate((c - 0x1_0000) / 0x400);
      assert hi == 0xd800 + (c - 0x1_0000) / 0x400 < 0xdc00;
      assert Code16(c, swap)[..k][..2] == Out16(hi, swap);
    }
  }

  lemma TextCuts(from: Charset, to: Charset, cs: seq<Char32>)
    requires Text(from, cs) && Text(to, cs)
    ensures CutsHalt(Taker(from, to), Codes(from, cs), EINVAL)
  {
    var a := Codes(from, cs);
    forall i, k | 0 <= i < |a| && 0 < k < |a[i]| ensures Taker(from, to)(a[i][..k]) == Halt(EINVAL) {
      CutCharacter(from, to, cs[i], k);
      TakerTakes(from, to, a[i][..k]);
    }
  }

  /** The output is the text's first characters in the target charset, and the input up to `at` is the same ones. */
  ghost predicate ConvertedUpTo(from: Charset, to: Charset, cs: seq<Char32>, out: seq<Byte>, at: nat)
    requires Text(from, cs) && Text(to, cs)
  {
    exists k: nat :: k <= |cs| && out == Flat(Codes(to, cs)[..k]) && at == |Flat(Codes(from, cs)[..k])|
  }

  /**
   * However the input arrives and whatever the sizes of the buffers: what has been written
   * encodes what has been consumed, and a last call with all of the input and enough room
   * leaves nothing.
   */
  lemma ResumesAnywhere(from: Charset, to: Charset, cs: seq<Char32>, calls: seq<Call>)
    requires Text(from, cs) && Text(to, cs) && Growing(calls, 0, |Bytes(from, cs)|)
    ensures var (out, at) := Calls(Taker(from, to), Bytes(from, cs), 0, calls);
            && ConvertedUpTo(from, to, cs, out, at)
            && (at == |Bytes(from, cs)| ==> out == Bytes(to, cs))
            && (calls != [] && EndsWithAll(calls[|calls| - 1], |Bytes(from, cs)|, |Bytes(to, cs)|) ==>
              at == |Bytes(from, cs)|)
  {
    TextTaken(from, to, cs);
    TextCuts(from, to, cs);
    var out, at, k := CallsFromStart(Taker(from, to), Codes(from, cs), Codes(to, cs), EINVAL, calls);
  }

  /** The same of the code, called again and again on one converter. */
  method ConvertTextInPieces(c: I.Converter, s: seq<Byte>, calls: seq<Call>, ghost cs: seq<Char32>)
      returns (out: seq<Byte>, at: nat)
    requires c.Sized() && Text(c.from, cs) && Text(c.to, cs) && s == Bytes(c.from, cs) && Growing(calls, 0, |s|)
    modifies c, c.buf, c.ps
    ensures ConvertedUpTo(c.from, c.to, cs, out, at)
    ensures at == |s| ==> out == Bytes(c.to, cs)
    ensures calls != [] && EndsWithAll(calls[|calls| - 1], |s|, |Bytes(c.to, cs)|) ==> at == |s|
  {
    out, at := c.ConvertInPieces(s, calls);
    ResumesAnywhere(c.from, c.to, cs, calls);
  }

  lemma OneShot(from: Charset, to: Charset, cs: seq<Char32>, room: nat)
    requires Text(from, cs) && Text(to, cs) && |Bytes(to, cs)| <= room
    ensures Run(Taker(from, to), Bytes(from, cs), 0, room) == Outcome(Bytes(to, cs), |Bytes(from, cs)|, Finished)
  {
    var (s, a, b) := (Bytes(from, cs), Codes(from, cs), Codes(to, cs));
    assert s[0..] == s == s + [] && a[..|a|] == a && b[..|b|] == b;
    TextTaken(from, to, cs);
    RunsPieces(Taker(from, to), a, b, [], Finished, s, 0, room);
    AllFit(b, room);
  }

  /** Converting there and back restores the bytes. */
  lemma ThereAndBack(from: Charset, to: Charset, cs: seq<Char32>, room: nat, back: nat)
    requires Text(from, cs) && Text(to, cs) && |Bytes(to, cs)| <= room && |Bytes(from, cs)| <= back
    ensures var there := Run(Taker(from, to), Bytes(from, cs), 0, room);
            there.stop == Finished && Run(Taker(to, from), there.out, 0, back).out == Bytes(from, cs)
  {
    OneShot(from, to, cs, room);
    OneShot(to, from, cs, back);
  }

  lemma NulTaken(to: Charset, rest: seq<Byte>)
    ensures Take(Utf8, to, [0] + rest) == Took(Code(to, 0).bytes, 0)
  {
    assert Feed([], [0] + rest) == Fed(Char(0), 1);
  }

  /** A NUL in UTF-8 input is never passed: it is written until the room is used up. */
  lemma NulIsNotPassed(to: Charset, s: seq<Byte>, pos: nat, room: nat)
    requires pos < |s| && s[pos] == 0
    ensures var r := Run(Taker(Utf8, to), s, pos, room); r.at == pos && r.stop == Stopped(E2BIG)
  {
    assert s[pos..] == [0] + s[pos + 1..];
    NulTaken(to, s[pos + 1..]);
    Stuck(Taker(Utf8, to), s, pos, Code(to, 0).bytes, room);
  }

  lemma {:induction false} Utf8Bytes(cs: seq<Char32>)
    requires Text(Utf8, cs)
    ensures Bytes(Utf8, cs) == T.EncodeAll(cs)
  {
    if cs != [] {
      assert Codes(Utf8, cs)[1..] == Codes(Utf8, cs[1..]);
      Utf8Bytes(cs[1..]);
    }
  }

  /** Text that the target can express, except that it may have NULs in it. */
  ghost predicate TextOrNul(to: Charset, cs: seq<Char32>) {
    forall i | 0 <= i < |cs| :: (cs[i] == 0 || Scalar(cs[i])) && Code(to, cs[i]).Ok?
  }

  lemma Utf8Takes(to: Charset, c: Char32, rest: seq<Byte>) returns (head: seq<Byte>, b: seq<Byte>)
    requires Scalar(c) && Code(to, c).Ok?
    ensures head == Encoding(c) && head != [] && Taker(Utf8, to)(head + rest) == Took(b, |head|)
  {
    head, b := Encoding(c), Code(to, c).bytes;
    Takes(Utf8, to, c, rest);
    TakerTakes(Utf8, to, head + rest);
  }

  lemma EncodedNul(cs: seq<Char32>, s: seq<Byte>, pos: nat)
    requires cs != [] && cs[0] == 0 && pos <= |s| && s[pos..] == T.EncodeAll(cs)
    ensures pos < |s| && s[pos] == 0
  {
    assert Encoding(0) == [0];
    assert s[pos..][0] == 0;
  }

  lemma PassesFirst(to: Charset, cs: seq<Char32>, s: seq<Byte>, pos: nat, room: nat) returns (next: nat, left: int)
    requires cs != [] && Scalar(cs[0]) && Code(to, cs[0]).Ok? && pos <= |s| && s[pos..] == T.EncodeAll(cs)
    ensures pos <= next <= |s| && s[next..] == T.EncodeAll(cs[1..])
    ensures Run(Taker(Utf8, to), s, pos, room).stop ==
            if left < 0 then Stopped(E2BIG) else Run(Taker(Utf8, to), s, next, left).stop
  {
    var rest := T.EncodeAll(cs[1..]);
    var head, b := Utf8Takes(to, cs[0], rest);
    next, left := StopAfter(Taker(Utf8, to), s, pos, room, head, rest, b);
  }

  lemma NulFirst(to: Charset, cs: seq<Char32>, s: seq<Byte>, pos: nat, room: nat)
    requires cs != [] && cs[0] == 0 && pos <= |s| && s[pos..] == T.EncodeAll(cs)
    ensures Run(Taker(Utf8, to), s, pos, room).stop == Stopped(E2BIG)
  {
    EncodedNul(cs, s, pos);
    NulIsNotPassed(to, s, pos, room);
  }

  lemma NulLater(to: Charset, cs: seq<Char32>)
    requires TextOrNul(to, cs) && 0 in cs && cs[0] != 0
    ensures TextOrNul(to, cs[1..]) && 0 in cs[1..]
  {
    assert forall i | 0 <= i < |cs| - 1 :: cs[1..][i] == cs[i + 1];
  }

  lemma {:induction false} NulStops(to: Charset, cs: seq<Char32>, s: seq<Byte>, pos: nat, room: nat)
    requires TextOrNul(to, cs) && 0 in cs && pos <= |s| && s[pos..] == T.EncodeAll(cs)
    ensures Run(Taker(Utf8, to), s, pos, room).stop == Stopped(E2BIG)
    decreases |cs|
  {
    if cs[0] == 0 {
      NulFirst(to, cs, s, pos, room);
    } else {
      var next, left := PassesFirst(to, cs, s, pos, room);
      NulLater(to, cs);
      if left >= 0 {
        NulStops(to, cs[1..], s, next, left);
      }
    }
  }

  /** UTF-8 text can be converted to its end, given room, exactly if there is no NUL in it. */
  lemma Utf8FinishesIff(to: Charset, cs: seq<Char32>)
    requires TextOrNul(to, cs)
    ensures (exists room: nat :: Run(Taker(Utf8, to), T.EncodeAll(cs), 0, room).stop == Finished) <==> 0 !in cs
  {
    var s := T.EncodeAll(cs);
    assert s[0..] == s;
    if 0 in cs {
      forall room: nat ensures Run(Taker(Utf8, to), s, 0, room).stop == Stopped(E2BIG) {
        NulStops(to, cs, s, 0, room);
      }
    } else {
      assert Text(Utf8, cs) && Text(to, cs);
      Utf8Bytes(cs);
      OneShot(Utf8, to, cs, |Bytes(to, cs)|);
    }
  }
}
