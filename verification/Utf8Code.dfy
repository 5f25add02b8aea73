/** What a run of bytes makes of an unfinished character: the automaton until it answers. */
module Utf8Feed {
  import opened Utf8Spec

  datatype Fed = Fed(step: Step, used: nat)

  function Feed(p: seq<Byte>, s: seq<Byte>): (r: Fed)
    requires Pending(p)
    ensures r.used <= |s| && (r.step.More? ==> r.used == |s| && r.step.pending == p + s && Pending(p + s))
    decreases s
  {
    if s == [] then assert p + s == p; Fed(More(p), 0)
    else
      match Read(p, s[0])
      case More(q) =>
        assert p + [s[0]] + s[1..] == p + s;
        var r := Feed(q, s[1..]);
        r.(used := r.used + 1)
      case x => Fed(x, 1)
  }
}

/** bionic/libc/bionic/c32rtomb.cpp and bionic/libc/bionic/mbrtoc32.cpp. */
module Utf8Code {
  import opened Common
  import opened Utf8Spec
  import opened Utf8Table
  import opened Utf8Feed

  datatype Errno = EILSEQ | EINVAL

  /** The size_t that the functions return. */
  datatype Result = Bytes(n: nat) | IncompleteSequence | IllegalSequence(errno: Errno)

  /** The bytes of an unfinished character as mbstate_t keeps them. */
  ghost function Padded(p: seq<Byte>): seq<Byte>
    requires |p| <= 4
  {
    p + seq(4 - |p|, _ => 0)
  }

  /** bionic/libc/private/bionic_mbstate.h. */
  class MbState {
    var bytes: seq<Byte>

    constructor ()
      ensures bytes == [0, 0, 0, 0]
    {
      bytes := [0, 0, 0, 0];
    }

    ghost predicate Shaped()
      reads this
    {
      |bytes| == 4
    }

    predicate Initial()
      requires Shaped()
      reads this
    {
      bytes[0] == 0 && bytes[1] == 0 && bytes[2] == 0 && bytes[3] == 0
    }

    function BytesSoFar(): nat
      requires Shaped()
      reads this
    {
      if bytes[2] != 0 then 3 else if bytes[1] != 0 then 2 else if bytes[0] != 0 then 1 else 0
    }

    /** The state holds the unfinished character `p`. */
    ghost predicate Holds(p: seq<Byte>)
      reads this
    {
      Pending(p) && |p| <= 3 && bytes == Padded(p)
    }

    method Reset()
      modifies this
      ensures bytes == [0, 0, 0, 0]
    {
      bytes := [0, 0, 0, 0];
    }

    method SetByte(i: nat, b: Byte)
      requires Shaped() && i < 4
      modifies this
      ensures bytes == old(bytes)[i := b]
    {
      bytes := bytes[i := b];
    }
  }

  lemma HeldNonzero(b: Byte)
    requires Announced(b) > 1 || Continues(b)
    ensures b != 0
  {
  }

  lemma HeldCount(m: MbState, p: seq<Byte>)
    requires m.Holds(p)
    ensures m.BytesSoFar() == |p| && (m.Initial() <==> p == [])
    ensures forall i | 0 <= i < |p| :: m.bytes[i] == p[i]
  {
    forall i | 0 <= i < |p| ensures p[i] != 0 {
      HeldNonzero(p[i]);
    }
  }

  // ---------------------------------------------------------------- encoding

  ghost function Shifts(c: Char32, k: nat): Char32 {
    if k == 0 then c else Shift(Shifts(c, k - 1))
  }

  /** `e` is what shifting `c` six bits at a time gives. */
  ghost predicate Spread(c: Char32, e: seq<Byte>) {
    && 1 <= |e| <= 4 && Shifts(c, |e| - 1) < Room(|e|) && e[0] == Head(Shifts(c, |e| - 1), |e|)
    && forall j | 1 <= j < |e| :: e[j] == Tail(Shifts(c, |e| - 1 - j))
  }

  lemma EncodingSpreads(c: Char32)
    requires Width(c) > 0
    ensures Spread(c, Encoding(c))
  {
    assert Shifts(c, 1) == Shift(c);
    assert Shifts(c, 2) == Shift(Shift(c));
    assert Shifts(c, 3) == Shift(Shift(Shift(c)));
  }

  /** Six bits at a time, least significant last; the first byte carries the mark. */
  method PutBytes(s: array<Byte>, c32: Char32, length: nat, ghost e: seq<Byte>)
    requires length <= s.Length && length == |e| && Spread(c32, e)
    modifies s
    ensures s[..length] == e && s[length..] == old(s[length..])
  {
    var c := c32;
    var i := length - 1;
    while i > 0
      invariant 0 <= i < length && c == Shifts(c32, length - 1 - i)
      invariant forall j | i < j < length :: s[j] == e[j]
      invariant forall j | length <= j < s.Length :: s[j] == old(s[j])
    {
      s[i] := Tail(c);
      c := Shift(c);
      i := i - 1;
    }
    s[0] := Head(c, length);
  }

  method C32rtomb(s: array?<Byte>, c32: Char32, ps: MbState) returns (r: Result)
    requires ps.Shaped() && (s != null && (c32 == 0 || ps.Initial()) ==> s.Length >= Width(c32))
    modifies s, ps
    ensures s == null || c32 == 0 ==> r == Bytes(1) && ps.bytes == [0, 0, 0, 0]
    ensures s != null && c32 != 0 && !old(ps.Initial()) ==> r == IllegalSequence(EILSEQ) && ps.bytes == [0, 0, 0, 0]
    ensures s != null && c32 != 0 && old(ps.Initial()) ==>
      ps.bytes == old(ps.bytes) && r == if Width(c32) == 0 then IllegalSequence(EILSEQ) else Bytes(Width(c32))
    ensures s != null && r.Bytes? ==> s[..r.n] == Encoding(c32) && s[r.n..] == old(s[r.n..])
    ensures s != null && !r.Bytes? ==> s[..] == old(s[..])
  {
    if s == null {
      ps.Reset();
      return Bytes(1);
    }
    if c32 == 0 {
      s[0] := 0;
      ps.Reset();
      return Bytes(1);
    }
    if !ps.Initial() {
      ps.Reset();
      return IllegalSequence(EILSEQ);
    }
    if c32 <= 0x7f {
      s[0] := c32;
      return Bytes(1);
    }
    var length;
    if c32 <= 0x7ff {
      length := 2;
    } else if c32 <= 0xffff {
      length := 3;
    } else if c32 <= 0x1f_ffff {
      length := 4;
    } else {
      return IllegalSequence(EILSEQ);
    }
    EncodingSpreads(c32);
    PutBytes(s, c32, length, Encoding(c32));
    return Bytes(length);
  }

  // ---------------------------------------------------------------- decoding

  /** The answer on a complete character. */
  ghost function Finish(q: seq<Byte>): Step
    requires 1 <= |q| <= 4
  {
    var c := Payload(q, |q|, |q|);
    if Width(c) == |q| && Legal(c) then Char(c) else Bad
  }

  /** Reading has used the first `i` bytes and is at the unfinished character `q`. */
  ghost predicate At(p: seq<Byte>, s: seq<Byte>, q: seq<Byte>, i: nat)
    requires Pending(p) && Pending(q) && i <= |s|
  {
    Feed(p, s) == var r := Feed(q, s[i..]); r.(used := r.used + i)
  }

  lemma NextByte(p: seq<Byte>, s: seq<Byte>, q: seq<Byte>, i: nat)
    requires Pending(p) && Pending(q) && i < |s| && At(p, s, q, i)
    ensures match Read(q, s[i])
            case More(q') => At(p, s, q', i + 1)
            case x => Feed(p, s) == Fed(x, i + 1)
  {
    assert s[i..][1..] == s[i + 1..];
  }

  lemma OutOfBytes(p: seq<Byte>, s: seq<Byte>, q: seq<Byte>)
    requires Pending(p) && Pending(q) && At(p, s, q, |s|)
    ensures Feed(p, s) == Fed(More(q), |s|)
  {
    assert s[|s|..] == [];
  }

  /** Padding grows by writing the next place. */
  lemma PaddedGrows(q: seq<Byte>, b: Byte)
    requires |q| < 4
    ensures Padded(q)[|q| := b] == Padded(q + [b])
  {
  }

  /** The fill loop has taken `i` bytes, and the state holds `q`. */
  ghost predicate Filling(p: seq<Byte>, s: seq<Byte>, q: seq<Byte>, i: nat, length: nat)
    requires Pending(p) && i <= |s|
  {
    && 1 < length <= 4 && |q| == |p| + i <= length && q == p + s[..i] && (q != [] ==> Announced(q[0]) == length)
    && if |q| < length then Pending(q) && At(p, s, q, i) else Complete(q) && Feed(p, s) == Fed(Finish(q), i)
  }

  lemma FillStarts(p: seq<Byte>, s: seq<Byte>)
    requires Pending(p) && |s| > 0 && Announced((p + s)[0]) > 1
    ensures Filling(p, s, p, 0, Announced((p + s)[0]))
  {
    assert s[0..] == s && p + s[..0] == p;
  }

  lemma ReadCases(q: seq<Byte>, b: Byte, length: nat)
    requires Pending(q) && |q| < length && Announced((q + [b])[0]) == length > 1
    ensures q != [] && !Continues(b) ==> Read(q, b) == Bad
    ensures (q == [] || Continues(b)) && |q| + 1 < length ==> Read(q, b) == More(q + [b])
    ensures (q == [] || Continues(b)) && |q| + 1 == length ==> Complete(q + [b]) && Read(q, b) == Finish(q + [b])
  {
  }

  lemma FillStep(p: seq<Byte>, s: seq<Byte>, q: seq<Byte>, i: nat, length: nat)
    requires Pending(p) && i < |s| && |q| < length && Filling(p, s, q, i, length) && length == Announced((p + s)[0])
    ensures q != [] && !Continues(s[i]) ==> Feed(p, s).step == Bad
    ensures q == [] || Continues(s[i]) ==> Filling(p, s, q + [s[i]], i + 1, length)
  {
    assert (p + s)[0] == (q + [s[i]])[0];
    ReadCases(q, s[i], length);
    NextByte(p, s, q, i);
    assert q + [s[i]] == p + s[..i + 1];
  }

  /** The loop that fills the state with the bytes of one character. */
  method Fill(s: seq<Byte>, ps: MbState, bytesSoFar: nat, length: nat, ghost p: seq<Byte>)
      returns (bad: bool, i: nat, ghost q: seq<Byte>)
    requires ps.Holds(p) && bytesSoFar == |p| && |s| > 0 && length == Announced((p + s)[0]) > 1
    modifies ps
    ensures bad ==> Feed(p, s).step == Bad && ps.bytes == [0, 0, 0, 0]
    ensures !bad ==> i <= |s| && Filling(p, s, q, i, length) && ps.bytes == Padded(q) && (|q| < length ==> i == |s|)
  {
    bad, i, q := false, 0, p;
    FillStarts(p, s);
    while i < length - bytesSoFar && i < |s|
      invariant i <= |s| && Filling(p, s, q, i, length) && ps.bytes == Padded(q)
    {
      FillStep(p, s, q, i, length);
      HeldCount(ps, q);
      if !ps.Initial() && !Continues(s[i]) {
        ps.Reset();
        bad := true;
        return;
      }
      PaddedGrows(q, s[i]);
      ps.SetByte(bytesSoFar + i, s[i]);
      q, i := q + [s[i]], i + 1;
    }
  }

  /** The payload, six bits at a time, most significant first. */
  method Decode(ps: MbState, length: nat) returns (c32: Char32)
    requires ps.Shaped() && 1 <= length <= 4
    ensures c32 == Payload(ps.bytes, length, length)
  {
    c32 := First(ps.bytes[0], length);
    var i := 1;
    while i < length
      invariant 1 <= i <= length && c32 == Payload(ps.bytes, length, i)
    {
      c32 := Join(c32, ps.bytes[i]);
      i := i + 1;
    }
  }

  lemma {:induction false} PayloadOfPadded(q: seq<Byte>, k: nat)
    requires 1 <= k <= |q| <= 4
    ensures Payload(Padded(q), |q|, k) == Payload(q, |q|, k)
  {
    if k > 1 {
      PayloadOfPadded(q, k - 1);
    }
  }

  /** The smallest character that is allowed to take so many bytes. */
  function LowerBound(length: nat): Char32 {
    if length == 2 then 0x80 else if length == 3 then 0x800 else if length == 4 then 0x1_0000 else 0
  }

  lemma BelowBound(q: seq<Byte>)
    requires Complete(q)
    ensures 1 <= |q| <= 4 && (Payload(q, |q|, |q|) < LowerBound(|q|) <==> Width(Payload(q, |q|, |q|)) != |q|)
  {
    CompleteWidth(q);
  }

  /** What mbrtoc32 must answer, and leave in the state, when reading the bytes came to `f`. */
  ghost predicate Answers(f: Fed, r: Result, pc32: Option<Char32>, bytes: seq<Byte>) {
    match f.step
    case Char(c) => r == Bytes(if c == 0 then 0 else f.used) && pc32 == Some(c) && bytes == [0, 0, 0, 0]
    case Bad => r == IllegalSequence(EILSEQ) && pc32 == None && bytes == [0, 0, 0, 0]
    case More(q) => r == IncompleteSequence && pc32 == None && |q| <= 3 && bytes == Padded(q)
  }

  method Mbrtoc32(s: Option<seq<Byte>>, ps: MbState, ghost p: seq<Byte>) returns (r: Result, pc32: Option<Char32>)
    requires ps.Shaped() && (ps.bytes[3] != 0 || ps.Holds(p))
    modifies ps
    ensures old(ps.bytes[3]) != 0 ==> r == IllegalSequence(EINVAL) && pc32 == None && ps.bytes == [0, 0, 0, 0]
    ensures old(ps.bytes[3]) == 0 && s == Some([]) ==> r == Bytes(0) && pc32 == None && ps.bytes == old(ps.bytes)
    ensures old(ps.bytes[3]) == 0 && s.Some? && s.value != [] ==> Answers(Feed(p, s.value), r, pc32, ps.bytes)
    ensures old(ps.bytes[3]) == 0 && s.None? ==>
      pc32 == None && (exists c: Option<Char32> :: Answers(Feed(p, [0]), r, c, ps.bytes))
  {
    if ps.bytes[3] != 0 {
      ps.Reset();
      return IllegalSequence(EINVAL), None;
    }
    var bytes := if s.None? then [0] else s.value;
    if |bytes| == 0 {
      return Bytes(0), None;
    }
    r, pc32 := DecodeBytes(bytes, ps, p);
    if s.None? {
      assert Answers(Feed(p, [0]), r, pc32, ps.bytes);
      pc32 := None;
    }
  }

  method DecodeBytes(s: seq<Byte>, ps: MbState, ghost p: seq<Byte>) returns (r: Result, pc32: Option<Char32>)
    requires |s| > 0 && ps.Holds(p)
    modifies ps
    ensures Answers(Feed(p, s), r, pc32, ps.bytes)
  {
    HeldCount(ps, p);
    if ps.Initial() && s[0] < 0x80 {
      AsciiFeed(s);
      return Bytes(if s[0] != 0 then 1 else 0), Some(s[0]);
    }
    var bytesSoFar := ps.BytesSoFar();
    var ch := if bytesSoFar > 0 then ps.bytes[0] else s[0];
    var length := Announced(ch);
    assert ch == (p + s)[0];
    if length == 0 {
      ps.Reset();
      return IllegalSequence(EILSEQ), None;
    }
    var bad, i, q := Fill(s, ps, bytesSoFar, length, p);
    if bad {
      return IllegalSequence(EILSEQ), None;
    }
    if i < length - bytesSoFar {
      OutOfBytes(p, s, q);
      return IncompleteSequence, None;
    }
    var c32 := Decode(ps, length);
    PayloadOfPadded(q, length);
    BelowBound(q);
    ps.Reset();
    if c32 < LowerBound(length) || (0xd800 <= c32 <= 0xdfff) || c32 == 0xfffe || c32 == 0xffff {
      return IllegalSequence(EILSEQ), None;
    }
    return Bytes(if c32 == 0 then 0 else length - bytesSoFar), Some(c32);
  }

  lemma AsciiFeed(s: seq<Byte>)
    requires |s| > 0 && s[0] < 0x80
    ensures Feed([], s) == Fed(Char(s[0]), 1)
  {
  }
}
