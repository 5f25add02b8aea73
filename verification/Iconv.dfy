/** bionic/libc/bionic/iconv.cpp as functions of the bytes: ERROR mode. */
module IconvSpec {
  import opened Utf8Spec
  import opened Utf8Feed
  import opened Pouring

  datatype Charset = UsAscii | Utf8 | Utf16Le | Utf16Be | Utf32Le | Utf32Be | WcharT

  datatype Next = Got(wc: Char32, used: nat) | Fail(errno: Errno)

  datatype Coded = Ok(bytes: seq<Byte>) | NotCoded

  // Both byte orders, with `swap` for the big-endian one.
  function In16(a: Byte, b: Byte, swap: bool): Char32 {
    if swap then a * 0x100 + b else a + b * 0x100
  }

  function Out16(ch: Char32, swap: bool): seq<Byte>
    requires ch < 0x1_0000
  {
    if swap then [ch / 0x100, ch % 0x100] else [ch % 0x100, ch / 0x100]
  }

  function In32(a: Byte, b: Byte, c: Byte, d: Byte, swap: bool): Char32 {
    if swap then ((a * 0x100 + b) * 0x100 + c) * 0x100 + d else a + 0x100 * (b + 0x100 * (c + 0x100 * d))
  }

  function Out32(ch: Char32, swap: bool): seq<Byte> {
    var (a, b, c, d) := (ch % 0x100, ch / 0x100 % 0x100, ch / 0x1_0000 % 0x100, ch / 0x100_0000);
    if swap then [d, c, b, a] else [a, b, c, d]
  }

  predicate Surrogate(wc: Char32) { 0xd800 <= wc <= 0xdfff }

  /** A pair is combined without looking at its second half. */
  function Combine(hi: Char32, lo: Char32): Char32
    requires 0xd800 <= hi < 0xdc00 && lo < 0x1_0000
  {
    0x1_0000 + (hi - 0xd800) * 0x400 + lo - 0xdc00
  }

  /** (char16_t) (0xd800 | x): four bits are set, the other twelve are those of x. */
  function HighSurrogate(x: Char32): Char32 {
    0xd800 + x % 0x800 + x / 0x2000 % 2 * 0x2000
  }

  /** The next character and the number of bytes that it took. */
  function GetNext(e: Charset, s: seq<Byte>): (r: Next)
    requires s != []
    ensures r.Got? ==> r.used <= |s|
  {
    match e
    case UsAscii => if s[0] > 0x7f then Fail(EILSEQ) else Got(s[0], 1)
    case Utf8 =>
      (var f := Feed([], s);
       match f.step
       case Char(c) => Got(c, if c == 0 then 0 else f.used)
       case More(_) => Fail(EINVAL)
       case Bad => Fail(EILSEQ))
    case Utf16Le => GetNext16(s, false)
    case Utf16Be => GetNext16(s, true)
    case Utf32Le => GetNext32(s, false)
    case Utf32Be => GetNext32(s, true)
    case WcharT => GetNext32(s, false)
  }

  function GetNext16(s: seq<Byte>, swap: bool): (r: Next)
    ensures r.Got? ==> r.used <= |s|
  {
    if |s| < 2 then Fail(EINVAL)
    else
      var wc := In16(s[0], s[1], swap);
      if !Surrogate(wc) then Got(wc, 2)
      else if wc >= 0xdc00 then Fail(EILSEQ)
      else if |s| < 4 then Fail(EINVAL)
      else Got(Combine(wc, In16(s[2], s[3], swap)), 4)
  }

  function GetNext32(s: seq<Byte>, swap: bool): (r: Next)
    ensures r.Got? ==> r.used <= |s|
  {
    if |s| < 4 then Fail(EINVAL) else Got(In32(s[0], s[1], s[2], s[3], swap), 4)
  }

  /** The bytes of a character, or EILSEQ. */
  function Code(e: Charset, wc: Char32): (r: Coded)
    ensures r.Ok? ==> 1 <= |r.bytes| <= 4
  {
    match e
    case UsAscii => if wc > 0x7f then NotCoded else Ok([wc])
    case Utf8 => if Width(wc) == 0 then NotCoded else Ok(Encoding(wc))
    case Utf16Le => Ok(Code16(wc, false))
    case Utf16Be => Ok(Code16(wc, true))
    case Utf32Le => Ok(Out32(wc, false))
    case Utf32Be => Ok(Out32(wc, true))
    case WcharT => Ok(Out32(wc, false))
  }

  function Code16(wc: Char32, swap: bool): seq<Byte> {
    if wc < 0x1_0000 then Out16(wc, swap)
    else Out16(HighSurrogate((wc - 0x1_0000) / 0x400), swap) + Out16(0xdc00 + (wc - 0x1_0000) % 0x400, swap)
  }

  function Take(from: Charset, to: Charset, s: seq<Byte>): (r: Taken<Byte>)
    ensures r.Took? ==> r.used <= |s| && r.bytes != []
  {
    if s == [] then Halt(EINVAL)
    else
      match GetNext(from, s)
      case Fail(e) => Halt(e)
      case Got(wc, used) =>
        match Code(to, wc)
        case NotCoded => Halt(EILSEQ)
        case Ok(bytes) => Took(bytes, used)
  }

  ghost function Taker(from: Charset, to: Charset): (t: seq<Byte> -> Taken<Byte>)
    ensures Sound(t)
  {
    s => Take(from, to, s)
  }

  lemma TakerTakes(from: Charset, to: Charset, s: seq<Byte>)
    ensures Taker(from, to)(s) == Take(from, to, s)
  {
  }
}

/** The driver itself. */
module Iconv {
  import opened Common
  import opened Utf8Spec
  import opened Utf8Feed
  import U = Utf8Code
  import opened Pouring
  import opened IconvSpec

  class Converter {
    const from: Charset
    const to: Charset
    const buf: array<Byte>
    const ps: U.MbState
    var wc: Char32
    var srcUsed: nat
    var dstUsed: nat
    // The caller's pointers: the input and the place in it, the bytes written, room for more.
    var input: seq<Byte>
    var pos: nat
    var dst: seq<Byte>
    var room: nat

    ghost predicate Sized() { buf.Length == 16 }

    /** No character is pending. */
    ghost predicate Valid()
      reads this, ps
    {
      Sized() && ps.bytes == [0, 0, 0, 0] && pos <= |input|
    }

    constructor (from: Charset, to: Charset)
      ensures Sized() && this.from == from && this.to == to && fresh(buf) && fresh(ps)
    {
      this.from, this.to := from, to;
      wc, srcUsed, dstUsed, input, pos, dst, room := 0, 0, 0, [], 0, [], 0;
      buf := new Byte[16](_ => 0);
      ps := new U.MbState();
    }

    method FetchUtf8(src: seq<Byte>) returns (r: Next)
      requires Valid() && src != []
      modifies this`wc, this`srcUsed, ps
      ensures r == GetNext(Utf8, src) && (r.Got? ==> Valid() && wc == r.wc && srcUsed == r.used)
    {
      assert U.Padded([]) == [0, 0, 0, 0];
      var n, c := U.Mbrtoc32(Some(src), ps, []);
      match n
      case Bytes(k) =>
        wc, srcUsed := c.value, k;
        r := Got(wc, k);
      case IllegalSequence(_) => r := Fail(EILSEQ);
      case IncompleteSequence => r := Fail(EINVAL);
    }

    method Fetch16(src: seq<Byte>, swap: bool) returns (r: Next)
      requires Valid()
      modifies this`wc, this`srcUsed
      ensures Valid() && r == GetNext16(src, swap) && (r.Got? ==> wc == r.wc && srcUsed == r.used)
    {
      if |src| < 2 {
        return Fail(EINVAL);
      }
      wc, srcUsed := In16(src[0], src[1], swap), 2;
      if 0xd800 <= wc <= 0xdfff {
        if wc >= 0xdc00 {
          return Fail(EILSEQ);
        }
        if |src| < 4 {
          return Fail(EINVAL);
        }
        var hi, lo := wc, In16(src[2], src[3], swap);
        wc, srcUsed := 0x1_0000 + (hi - 0xd800) * 0x400 + lo - 0xdc00, 4;
      }
      r := Got(wc, srcUsed);
    }

    method Fetch32(src: seq<Byte>, swap: bool) returns (r: Next)
      requires Valid()
      modifies this`wc, this`srcUsed
      ensures Valid() && r == GetNext32(src, swap) && (r.Got? ==> wc == r.wc && srcUsed == r.used)
    {
      if |src| < 4 {
        return Fail(EINVAL);
      }
      wc, srcUsed := In32(src[0], src[1], src[2], src[3], swap), 4;
      r := Got(wc, srcUsed);
    }

    /** GetNext: reads a character into `wc` without moving the caller's pointer. */
    method Fetch() returns (r: Next)
      requires Valid() && pos < |input|
      modifies this`wc, this`srcUsed, ps
      ensures r == GetNext(from, input[pos..]) && (r.Got? ==> Valid() && wc == r.wc && srcUsed == r.used)
    {
      var src := input[pos..];
      match from
      case UsAscii =>
        wc, srcUsed := src[0], 1;
        r := if wc > 0x7f then Fail(EILSEQ) else Got(wc, 1);
      case Utf8 => r := FetchUtf8(src);
      case Utf16Le => r := Fetch16(src, false);
      case Utf16Be => r := Fetch16(src, true);
      case Utf32Le => r := Fetch32(src, false);
      case Utf32Be => r := Fetch32(src, true);
      case WcharT => r := Fetch32(src, false);
    }

    method Store16(at: nat, ch: Char32, swap: bool)
      requires Valid() && ch < 0x1_0000 && at + 2 <= 4
      modifies this`dstUsed, buf
      ensures Valid() && dstUsed == 2 && buf[at..at + 2] == Out16(ch, swap)
      ensures forall i | 0 <= i < 16 && i != at && i != at + 1 :: buf[i] == old(buf[i])
    {
      var swapped := if swap then ch % 0x100 * 0x100 + ch / 0x100 else ch;
      buf[at] := swapped % 0x100;
      buf[at + 1] := swapped / 0x100;
      dstUsed := 2;
    }

    method Code16Into(swap: bool)
      requires Valid()
      modifies this`wc, this`dstUsed, buf
      ensures Valid() && dstUsed == |Code16(old(wc), swap)| <= 4 && buf[..dstUsed] == Code16(old(wc), swap)
    {
      if wc < 0x1_0000 {
        Store16(0, wc, swap);
      } else {
        wc := wc - 0x1_0000;
        var hi, lo := HighSurrogate(wc / 0x400), 0xdc00 + wc % 0x400;
        Store16(0, hi, swap);
        Store16(2, lo, swap);
        dstUsed := 4;
        assert buf[..4] == buf[0..2] + buf[2..4];
      }
    }

    method Store32(swap: bool)
      requires Valid()
      modifies this`dstUsed, buf
      ensures Valid() && dstUsed == 4 && buf[..4] == Out32(wc, swap)
    {
      var bytes := Out32(wc, false);
      if swap {
        bytes := [bytes[3], bytes[2], bytes[1], bytes[0]];
      }
      buf[0], buf[1], buf[2], buf[3] := bytes[0], bytes[1], bytes[2], bytes[3];
      dstUsed := 4;
    }

    /** Convert without Emit: the character's bytes are put into `buf`. */
    method Store() returns (ok: bool)
      requires Valid()
      modifies this`wc, this`dstUsed, buf, ps
      ensures Valid() && ok == Code(to, old(wc)).Ok?
      ensures ok ==> dstUsed == |Code(to, old(wc)).bytes| && buf[..dstUsed] == Code(to, old(wc)).bytes
    {
      ok := true;
      match to
      case UsAscii =>
        if wc > 0x7f {
          return false;
        }
        buf[0], dstUsed := wc, 1;
      case Utf8 =>
        var n := U.C32rtomb(buf, wc, ps);
        if !n.Bytes? {
          return false;
        }
        dstUsed := n.n;
      case Utf16Le => Code16Into(false);
      case Utf16Be => Code16Into(true);
      case Utf32Le => Store32(false);
      case Utf32Be => Store32(true);
      case WcharT => Store32(false);
    }

    /** Nothing moves unless the whole character fits. */
    method Emit() returns (ok: bool)
      requires Valid() && dstUsed <= 4 && pos + srcUsed <= |input|
      modifies this`pos, this`dst, this`room
      ensures Valid() && ok == (dstUsed <= old(room))
      ensures ok ==> pos == old(pos) + srcUsed && dst == old(dst) + buf[..dstUsed] && room == old(room) - dstUsed
      ensures !ok ==> unchanged(this)
    {
      if dstUsed > room {
        return false;
      }
      dst := dst + buf[..dstUsed];
      pos := pos + srcUsed;
      room := room - dstUsed;
      ok := true;
    }

    /** One character, if nothing stands in the way. */
    method TakeOne() returns (stop: Stop, ghost taken: Taken<Byte>)
      requires Valid() && pos < |input|
      modifies this, buf, ps
      ensures input == old(input) && taken == Take(from, to, input[old(pos)..])
      ensures stop.Stopped? ==>
        && pos == old(pos) && dst == old(dst) && room == old(room)
        && (if taken.Halt? then stop.errno == taken.errno else stop.errno == E2BIG && |taken.bytes| > room)
      ensures stop.Finished? ==>
        && Valid() && taken.Took? && |taken.bytes| <= old(room)
        && pos == old(pos) + taken.used && dst == old(dst) + taken.bytes && room == old(room) - |taken.bytes|
    {
      taken := Take(from, to, input[pos..]);
      var got := Fetch();
      if got.Fail? {
        return Stopped(got.errno), taken;
      }
      var ok := Store();
      if !ok {
        return Stopped(EILSEQ), taken;
      }
      ok := Emit();
      stop := if ok then Finished else Stopped(E2BIG);
    }

    method ConvertOne() returns (stop: Stop, ghost bytes: seq<Byte>)
      requires Valid() && pos < |input|
      modifies this, buf, ps
      ensures input == old(input) && pos <= |input|
      ensures stop.Stopped? ==>
        && pos == old(pos) && dst == old(dst) && room == old(room)
        && Run(Taker(from, to), input, pos, room) == Outcome([], pos, stop)
      ensures stop.Finished? ==>
        && Valid() && 0 < |bytes| <= old(room) && old(pos) <= pos && dst == old(dst) + bytes
        && room == old(room) - |bytes|
        && Run(Taker(from, to), input, old(pos), old(room)) == After(bytes, Run(Taker(from, to), input, pos, room))
    {
      ghost var taken, at, left := Halt(EINVAL), pos, room;
      stop, taken := TakeOne();
      bytes := if taken.Took? then taken.bytes else [];
      TakerTakes(from, to, input[at..]);
      RunMoves(Taker(from, to), input, at, left, taken, stop, bytes, pos, room);
    }

    /** Whatever an earlier call has left behind, a call starts with no character pending. */
    method Convert(s: seq<Byte>, start: nat, n: nat) returns (stop: Stop)
      requires Sized() && start <= |s|
      modifies this, buf, ps
      ensures Run(Taker(from, to), s, start, n) == Outcome(dst, pos, stop) && room == n - |dst|
    {
      ps.Reset();
      wc, input, pos, dst, room := 0, s, start, [], n;
      ghost var whole := Run(Taker(from, to), s, start, n);
      while pos < |input|
        invariant Valid() && input == s && |dst| + room == n
        invariant whole == After(dst, Run(Taker(from, to), s, pos, room))
        decreases |s| - pos + room
      {
        ghost var bytes, written := [], dst;
        stop, bytes := ConvertOne();
        if stop.Stopped? {
          return;
        }
        AfterTwice(written, bytes, Run(Taker(from, to), s, pos, room));
      }
      stop := Finished;
    }

    /** A caller that passes what has arrived and not been consumed, whatever stopped the last call. */
    method ConvertInPieces(s: seq<Byte>, calls: seq<Call>) returns (out: seq<Byte>, at: nat)
      requires Sized() && Growing(calls, 0, |s|)
      modifies this, buf, ps
      ensures (out, at) == Calls(Taker(from, to), s, 0, calls)
    {
      out, at := [], 0;
      var left := calls;
      ghost var t := Taker(from, to);
      ghost var whole := Calls(t, s, at, left);
      NothingBefore(whole);
      while left != []
        invariant Growing(left, at, |s|) && Together(out, Calls(t, s, at, left)) == whole
        decreases |left|
      {
        var more, next := CallOnce(s, left[0], at);
        NextCall(t, s, at, left, more, next, out);
        out, at, left := out + more, next, left[1..];
      }
      NothingAfter(t, s, out, at);
    }

    method CallOnce(s: seq<Byte>, call: Call, at: nat) returns (more: seq<Byte>, next: nat)
      requires Sized() && at <= call.end <= |s|
      modifies this, buf, ps
      ensures var r := Run(Taker(from, to), s[..call.end], at, call.room); more == r.out && next == r.at
    {
      var _ := Convert(s[..call.end], at, call.room);
      more, next := dst, pos;
    }
  }
}

/** The source's masks and shifts are the arithmetic of IconvSpec, stated on machine words. */
module IconvBits {

  lemma Surrogates(w: bv32)
    ensures (0xd800 | (w >> 10)) & 0xffff == 0xd800 + (w / 0x400) % 0x800 + (w / 0x400) / 0x2000 % 2 * 0x2000
    ensures 0xdc00 | (w & 0x3ff) == 0xdc00 + w % 0x400
  {
    assert w >> 10 == w / 0x400;
  }

  lemma Halves(ch: bv16)
    ensures ch & 0xff == ch % 0x100 && ch >> 8 == ch / 0x100
    ensures (ch << 8) | (ch >> 8) == ch % 0x100 * 0x100 + ch / 0x100
  {
  }

  lemma Quarters(ch: bv32)
    ensures ch & 0xff == ch % 0x100 && (ch >> 8) & 0xff == ch / 0x100 % 0x100
    ensures (ch >> 16) & 0xff == ch / 0x1_0000 % 0x100 && ch >> 24 == ch / 0x100_0000
  {
  }
}
