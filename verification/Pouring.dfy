/**
 * Converting piece by piece into a buffer of limited size, without regard to what
 * the pieces mean: the loop of iconv, for any way of taking one character.
 */
module Pouring {
  import opened Common

  datatype Errno = EILSEQ | EINVAL | E2BIG

  datatype Stop = Finished | Stopped(errno: Errno)

  /** What iconv leaves behind: the output, where in the input it has got to, and why it stopped. */
  datatype Outcome<T> = Outcome(out: seq<T>, at: nat, stop: Stop)

  function After<T>(bytes: seq<T>, r: Outcome<T>): Outcome<T> { r.(out := bytes + r.out) }

  lemma AfterTwice<T>(a: seq<T>, b: seq<T>, r: Outcome<T>)
    ensures After(a, After(b, r)) == After(a + b, r)
  {
    assert a + (b + r.out) == (a + b) + r.out;
  }

  /** One character converted, or the reason why not. */
  datatype Taken<T> = Took(bytes: seq<T>, used: nat) | Halt(errno: Errno)

  /** A way to take one character after the other. */
  ghost predicate Sound<T(!new)>(t: seq<T> -> Taken<T>) {
    forall s :: t(s).Took? ==> t(s).used <= |s| && t(s).bytes != []
  }

  /** Converting s from `pos` on into a buffer with so much room. */
  ghost function Run<T(!new)>(t: seq<T> -> Taken<T>, s: seq<T>, pos: nat, room: nat): (r: Outcome<T>)
    requires Sound(t) && pos <= |s|
    ensures pos <= r.at <= |s| && |r.out| <= room
    decreases |s| - pos + room
  {
    if pos == |s| then Outcome([], pos, Finished)
    else
      match t(s[pos..])
      case Halt(e) => Outcome([], pos, Stopped(e))
      case Took(bytes, used) =>
        if |bytes| > room then Outcome([], pos, Stopped(E2BIG))
        else After(bytes, Run(t, s, pos + used, room - |bytes|))
  }

  lemma RunOnce<T(!new)>(t: seq<T> -> Taken<T>, s: seq<T>, pos: nat, room: nat)
    requires Sound(t) && pos < |s|
    ensures Run(t, s, pos, room) ==
            match t(s[pos..])
            case Halt(e) => Outcome([], pos, Stopped(e))
            case Took(bytes, used) =>
              if |bytes| > room then Outcome([], pos, Stopped(E2BIG))
              else After(bytes, Run(t, s, pos + used, room - |bytes|))
  {
  }

  /** How one character moves a run on, or ends it. */
  lemma RunMoves<T(!new)>(
      t: seq<T> -> Taken<T>, s: seq<T>, pos: nat, room: nat, taken: Taken<T>, stop: Stop, bytes: seq<T>, pos': nat,
      room': nat)
    requires Sound(t) && pos < |s| && taken == t(s[pos..])
    requires stop.Stopped? ==>
      (if taken.Halt? then stop.errno == taken.errno else stop.errno == E2BIG && |taken.bytes| > room)
    requires stop.Finished? ==>
      taken.Took? && bytes == taken.bytes && pos' == pos + taken.used && |bytes| <= room && room' == room - |bytes|
    ensures stop.Stopped? ==> Run(t, s, pos, room) == Outcome([], pos, stop)
    ensures stop.Finished? ==>
      bytes != [] && pos' <= |s| && Run(t, s, pos, room) == After(bytes, Run(t, s, pos', room'))
  {
    RunOnce(t, s, pos, room);
  }

  // ---------------------------------------------------------------- pieces of a text

  /** `t` reads `x` as one character, whatever follows, and writes it as `y`. */
  ghost predicate TakesPiece<T(!new)>(t: seq<T> -> Taken<T>, x: seq<T>, y: seq<T>) {
    x != [] && forall rest {:trigger t(x + rest)} :: t(x + rest) == Took(y, |x|)
  }

  ghost predicate TakesAll<T(!new)>(t: seq<T> -> Taken<T>, a: seq<seq<T>>, b: seq<seq<T>>) {
    |a| == |b| && forall i | 0 <= i < |a| :: TakesPiece(t, a[i], b[i])
  }

  /** How many pieces fit in the room. */
  ghost function Fit<T>(b: seq<seq<T>>, room: nat): (k: nat)
    ensures k <= |b|
  {
    if b == [] || |b[0]| > room then 0 else 1 + Fit(b[1..], room - |b[0]|)
  }

  /** The input ends here, or goes on with something that can not be converted. */
  ghost predicate StopsWith<T(!new)>(t: seq<T> -> Taken<T>, s: seq<T>, last: Stop) {
    if s == [] then last.Finished? else t(s).Halt? && last == Stopped(t(s).errno)
  }

  /** The first k pieces converted; `last` is what stops the converter after all of them. */
  ghost function Converted<T>(pos: nat, a: seq<seq<T>>, b: seq<seq<T>>, k: nat, last: Stop): Outcome<T>
    requires k <= |a| == |b|
  {
    Outcome(Flat(b[..k]), pos + |Flat(a[..k])|, if k == |a| then last else Stopped(E2BIG))
  }

  lemma ConvertedMore<T>(pos: nat, a: seq<seq<T>>, b: seq<seq<T>>, k: nat, last: Stop)
    requires k < |a| == |b|
    ensures After(b[0], Converted(pos + |a[0]|, a[1..], b[1..], k, last)) == Converted(pos, a, b, k + 1, last)
  {
    assert b[..k + 1][1..] == b[1..][..k];
    assert a[..k + 1][1..] == a[1..][..k];
  }

  lemma DropHead<T>(s: seq<T>, pos: nat, head: seq<T>, rest: seq<T>)
    requires pos <= |s| && s[pos..] == head + rest
    ensures pos + |head| <= |s| && s[pos + |head|..] == rest
  {
    assert s[pos + |head|..] == s[pos..][|head|..];
  }

  lemma TakesFirst<T(!new)>(t: seq<T> -> Taken<T>, a: seq<seq<T>>, b: seq<seq<T>>, rest: seq<T>, s: seq<T>, pos: nat)
    requires TakesAll(t, a, b) && a != [] && pos <= |s| && s[pos..] == Flat(a) + rest
    ensures pos + |a[0]| <= |s| && s[pos + |a[0]|..] == Flat(a[1..]) + rest && t(s[pos..]) == Took(b[0], |a[0]|)
    ensures a[0] != []
  {
    assert TakesPiece(t, a[0], b[0]);
    assert s[pos..] == a[0] + (Flat(a[1..]) + rest);
    DropHead(s, pos, a[0], Flat(a[1..]) + rest);
  }

  lemma RunTakes<T(!new)>(t: seq<T> -> Taken<T>, s: seq<T>, pos: nat, room: nat, b: seq<T>, used: nat, r: Outcome<T>)
    requires Sound(t) && pos < |s| && t(s[pos..]) == Took(b, used) && |b| <= room && pos + used <= |s|
    requires r == Run(t, s, pos + used, room - |b|)
    ensures Run(t, s, pos, room) == After(b, r)
  {
  }

  lemma RunEnds<T(!new)>(t: seq<T> -> Taken<T>, s: seq<T>, pos: nat, room: nat, last: Stop)
    requires Sound(t) && pos <= |s| && StopsWith(t, s[pos..], last)
    ensures Run(t, s, pos, room) == Outcome([], pos, last)
  {
  }

  lemma RunFull<T(!new)>(t: seq<T> -> Taken<T>, s: seq<T>, pos: nat, room: nat)
    requires Sound(t) && pos < |s| && t(s[pos..]).Took? && |t(s[pos..]).bytes| > room
    ensures Run(t, s, pos, room) == Outcome([], pos, Stopped(E2BIG))
  {
  }

  /** From `pos` on, `t` takes the pieces `a` one after the other, writes `b`, and is then stopped. */
  ghost predicate Steps<T(!new)>(t: seq<T> -> Taken<T>, s: seq<T>, pos: nat, a: seq<seq<T>>, b: seq<seq<T>>, last: Stop)
    requires |a| == |b|
    decreases |a|
  {
    pos <= |s| &&
    if a == [] then StopsWith(t, s[pos..], last)
    else
      && pos + |a[0]| <= |s| && pos < |s| && t(s[pos..]) == Took(b[0], |a[0]|)
      && Steps(t, s, pos + |a[0]|, a[1..], b[1..], last)
  }

  lemma {:induction false} PiecesStep<T(!new)>(
      t: seq<T> -> Taken<T>, a: seq<seq<T>>, b: seq<seq<T>>, rest: seq<T>, last: Stop, s: seq<T>, pos: nat)
    requires TakesAll(t, a, b) && StopsWith(t, rest, last) && pos <= |s| && s[pos..] == Flat(a) + rest
    ensures Steps(t, s, pos, a, b, last)
    decreases |a|
  {
    if a == [] {
      assert s[pos..] == rest;
    } else {
      TakesFirst(t, a, b, rest, s, pos);
      PiecesStep(t, a[1..], b[1..], rest, last, s, pos + |a[0]|);
    }
  }

  lemma {:induction false} RunsSteps<T(!new)>(
      t: seq<T> -> Taken<T>, s: seq<T>, pos: nat, a: seq<seq<T>>, b: seq<seq<T>>, last: Stop, room: nat)
    requires Sound(t) && |a| == |b| && Steps(t, s, pos, a, b, last)
    ensures Run(t, s, pos, room) == Converted(pos, a, b, Fit(b, room), last)
    decreases |a|
  {
    if a == [] {
      RunEnds(t, s, pos, room, last);
    } else if |b[0]| > room {
      RunFull(t, s, pos, room);
    } else {
      var k := Fit(b[1..], room - |b[0]|);
      RunsSteps(t, s, pos + |a[0]|, a[1..], b[1..], last, room - |b[0]|);
      RunTakes(t, s, pos, room, b[0], |a[0]|, Converted(pos + |a[0]|, a[1..], b[1..], k, last));
      ConvertedMore(pos, a, b, k, last);
    }
  }

  /** The converter takes as many whole pieces as fit. */
  lemma RunsPieces<T(!new)>(
      t: seq<T> -> Taken<T>, a: seq<seq<T>>, b: seq<seq<T>>, rest: seq<T>, last: Stop, s: seq<T>, pos: nat, room: nat)
    requires Sound(t) && TakesAll(t, a, b) && StopsWith(t, rest, last) && pos <= |s| && s[pos..] == Flat(a) + rest
    ensures Run(t, s, pos, room) == Converted(pos, a, b, Fit(b, room), last)
  {
    PiecesStep(t, a, b, rest, last, s, pos);
    RunsSteps(t, s, pos, a, b, last, room);
  }

  // ---------------------------------------------------------------- sizes

  lemma {:induction false} FlatSplits<T>(a: seq<seq<T>>, k: nat)
    requires k <= |a|
    ensures Flat(a) == Flat(a[..k]) + Flat(a[k..])
  {
    if k > 0 {
      FlatSplits(a[1..], k - 1);
      assert a[..k][1..] == a[1..][..k - 1] && a[1..][k - 1..] == a[k..];
    } else {
      assert a[0..] == a;
    }
  }

  lemma FlatJoins<T>(a: seq<seq<T>>, j: nat, i: nat)
    requires j + i <= |a|
    ensures Flat(a[..j]) + Flat(a[j..][..i]) == Flat(a[..j + i])
  {
    FlatSplits(a[..j + i], j);
    assert a[..j + i][..j] == a[..j] && a[..j + i][j..] == a[j..][..i];
  }

  lemma {:induction false} AllFit<T>(b: seq<seq<T>>, room: nat)
    requires |Flat(b)| <= room
    ensures Fit(b, room) == |b|
  {
    if b != [] {
      AllFit(b[1..], room - |b[0]|);
    }
  }

  /** No more of them could be written. */
  lemma {:induction false} FitIsMost<T>(b: seq<seq<T>>, room: nat)
    ensures var k := Fit(b, room); |Flat(b[..k])| <= room && (k < |b| ==> |Flat(b[..k + 1])| > room)
  {
    var k := Fit(b, room);
    if k > 0 {
      FitIsMost(b[1..], room - |b[0]|);
      assert b[..k][1..] == b[1..][..k - 1];
      if k < |b| {
        assert b[..k + 1][1..] == b[1..][..k];
      }
    } else if b != [] {
      assert b[..1][1..] == [];
    }
  }

  lemma NonEmpty<T>(a: seq<seq<T>>)
    requires a != [] && a[0] != []
    ensures |Flat(a)| > 0
  {
  }

  /** Nothing is left when as many bytes have been consumed as there are. */
  lemma ConsumedAll<T>(a: seq<seq<T>>, k: nat)
    requires k <= |a| && (forall i | 0 <= i < |a| :: a[i] != [])
    ensures k < |a| ==> |Flat(a[..k])| < |Flat(a)|
  {
    FlatSplits(a, k);
    if k < |a| {
      NonEmpty(a[k..]);
    }
  }

  // ---------------------------------------------------------------- several calls

  /** One call: how much of the input has arrived by then, and the size of its buffer. */
  datatype Call = Call(end: nat, room: nat)

  /** Input arrives and is not taken back. */
  ghost predicate Growing(calls: seq<Call>, from: nat, to: nat)
    decreases |calls|
  {
    if calls == [] then from <= to else from <= calls[0].end <= to && Growing(calls[1..], calls[0].end, to)
  }

  lemma GrowsFrom(calls: seq<Call>, from: nat, to: nat, earlier: nat)
    requires Growing(calls, from, to) && earlier <= from
    ensures Growing(calls, earlier, to) && earlier <= to
  {
  }

  /** Calls one after the other, each going on where the last one stopped. */
  ghost function Calls<T(!new)>(t: seq<T> -> Taken<T>, s: seq<T>, pos: nat, calls: seq<Call>): (r: (seq<T>, nat))
    requires Sound(t) && Growing(calls, pos, |s|)
    decreases |calls|
  {
    if calls == [] then ([], pos)
    else
      var r := Run(t, s[..calls[0].end], pos, calls[0].room);
      GrowsFrom(calls[1..], calls[0].end, |s|, r.at);
      var (out, at) := Calls(t, s, r.at, calls[1..]);
      (r.out + out, at)
  }

  /** A piece of which only a part has arrived stops the converter. */
  ghost predicate CutsHalt<T(!new)>(t: seq<T> -> Taken<T>, a: seq<seq<T>>, e: Errno) {
    forall i, k | 0 <= i < |a| && 0 < k < |a[i]| :: t(a[i][..k]) == Halt(e)
  }

  lemma FlatNext<T>(a: seq<seq<T>>, j: nat)
    requires j < |a|
    ensures Flat(a[..j + 1]) == Flat(a[..j]) + a[j]
  {
    FlatJoins(a, j, 1);
    assert a[j..][..1] == [a[j]] && Flat([a[j]]) == a[j] + Flat([]);
  }

  /** Where in the pieces the input is cut off. */
  lemma {:induction false} CutAt<T>(a: seq<seq<T>>, j: nat, end: nat) returns (m: nat, k: nat)
    requires j <= |a| && |Flat(a[..j])| <= end <= |Flat(a)|
    ensures j <= m <= |a| && end == |Flat(a[..m])| + k && (if m < |a| then k < |a[m]| else k == 0)
    decreases |a| - j
  {
    if j == |a| {
      assert a[..j] == a;
      m, k := j, 0;
    } else {
      FlatNext(a, j);
      if end < |Flat(a[..j + 1])| {
        m, k := j, end - |Flat(a[..j])|;
      } else {
        m, k := CutAt(a, j + 1, end);
      }
    }
  }

  lemma FlatBetween<T>(a: seq<seq<T>>, j: nat, k: nat)
    requires j <= k <= |a|
    ensures Flat(a[..j]) + Flat(a[j..k]) == Flat(a[..k])
  {
    FlatJoins(a, j, k - j);
    assert a[j..][..k - j] == a[j..k];
  }

  /** What has arrived from the j-th piece on: whole pieces and a part of one. */
  lemma Window<T>(a: seq<seq<T>>, j: nat, m: nat, k: nat, end: nat, part: seq<T>)
    requires j <= m <= |a| && end == |Flat(a[..m])| + k
    requires if m < |a| then k < |a[m]| && part == a[m][..k] else k == 0 && part == []
    ensures |Flat(a[..j])| <= end <= |Flat(a)| && Flat(a)[..end][|Flat(a[..j])|..] == Flat(a[j..m]) + part
  {
    FlatBetween(a, j, m);
    FlatSplits(a, m);
    if m < |a| {
      assert Flat(a[m..]) == a[m] + Flat(a[m..][1..]);
    }
    assert Flat(a)[..end] == Flat(a[..m]) + part;
  }

  lemma PiecesBetween<T(!new)>(t: seq<T> -> Taken<T>, a: seq<seq<T>>, b: seq<seq<T>>, j: nat, m: nat)
    requires TakesAll(t, a, b) && j <= m <= |a|
    ensures TakesAll(t, a[j..m], b[j..m])
  {
    forall i | 0 <= i < m - j ensures TakesPiece(t, a[j..m][i], b[j..m][i]) {
      assert TakesPiece(t, a[j + i], b[j + i]);
    }
  }

  lemma EndIsLast<T>(a: seq<seq<T>>, m: nat, k: nat)
    requires m <= |a| && |Flat(a)| == |Flat(a[..m])| + k && (m < |a| ==> k < |a[m]|)
    ensures m == |a|
  {
    FlatSplits(a, m);
  }

  lemma ReachedBetween<T>(a: seq<seq<T>>, b: seq<seq<T>>, j: nat, m: nat, i: nat)
    requires j + i <= m <= |a| == |b|
    ensures |Flat(a[..j])| + |Flat(a[j..m][..i])| == |Flat(a[..j + i])| && b[j..m][..i] == b[j..j + i]
  {
    assert a[j..m][..i] == a[j..j + i];
    FlatBetween(a, j, j + i);
  }

  lemma PartSmaller<T>(b: seq<seq<T>>, j: nat, m: nat)
    requires j <= m <= |b|
    ensures |Flat(b[j..m])| <= |Flat(b)|
  {
    FlatBetween(b, j, m);
    FlatSplits(b, m);
  }

  /** The first i of the later pieces, and where they lead. */
  ghost predicate Follows<T>(
      a: seq<seq<T>>, b: seq<seq<T>>, j: nat, pos: nat, a1: seq<seq<T>>, b1: seq<seq<T>>, i: nat)
  {
    && j + i <= |a| == |b| && i <= |a1| == |b1|
    && Flat(b1[..i]) == Flat(b[j..j + i]) && pos + |Flat(a1[..i])| == |Flat(a[..j + i])|
  }

  lemma Lands<T>(
      a: seq<seq<T>>, b: seq<seq<T>>, j: nat, pos: nat, a1: seq<seq<T>>, b1: seq<seq<T>>, i: nat, out: seq<T>, at: nat)
      returns (f: nat)
    requires Follows(a, b, j, pos, a1, b1, i) && out == Flat(b1[..i]) && at == pos + |Flat(a1[..i])|
    ensures f == j + i <= |a| == |b| && out == Flat(b[j..f]) && at == |Flat(a[..f])|
  {
    f := j + i;
  }

  /** The pieces that a call from the j-th one on finds, and what stops it behind them. */
  lemma Arrived<T(!new)>(
      t: seq<T> -> Taken<T>, a: seq<seq<T>>, b: seq<seq<T>>, e: Errno, j: nat, end: nat, s: seq<T>, pos: nat)
      returns (m: nat, a1: seq<seq<T>>, b1: seq<seq<T>>, part: seq<T>, last: Stop)
    requires TakesAll(t, a, b) && CutsHalt(t, a, e)
    requires j <= |a| && pos == |Flat(a[..j])| <= end <= |Flat(a)| && s == Flat(a)[..end]
    ensures j <= m <= |a| && |a1| == m - j && |Flat(b1)| <= |Flat(b)| && TakesAll(t, a1, b1) && StopsWith(t, part, last)
    ensures forall i: nat {:trigger Follows(a, b, j, pos, a1, b1, i)} | i <= |a1| :: Follows(a, b, j, pos, a1, b1, i)
    ensures pos <= |s| && s[pos..] == Flat(a1) + part
    ensures end == |Flat(a)| ==> m == |a|
  {
    var k;
    m, k := CutAt(a, j, end);
    part := if m < |a| then a[m][..k] else [];
    last := if part == [] then Finished else Stopped(e);
    Window(a, j, m, k, end, part);
    PiecesBetween(t, a, b, j, m);
    a1, b1 := a[j..m], b[j..m];
    forall i: nat | i <= |a1| ensures Follows(a, b, j, pos, a1, b1, i) {
      ReachedBetween(a, b, j, m, i);
    }
    PartSmaller(b, j, m);
    if end == |Flat(a)| {
      EndIsLast(a, m, k);
    }
  }

  lemma RunFrom<T(!new)>(
      t: seq<T> -> Taken<T>, s: seq<T>, pos: nat, room: nat, a: seq<seq<T>>, b: seq<seq<T>>, part: seq<T>, last: Stop)
      returns (r: Outcome<T>, i: nat)
    requires Sound(t) && TakesAll(t, a, b) && StopsWith(t, part, last) && pos <= |s| && s[pos..] == Flat(a) + part
    ensures r == Run(t, s, pos, room)
    ensures i <= |a| == |b| && r.out == Flat(b[..i]) && r.at == pos + |Flat(a[..i])|
    ensures |Flat(b)| <= room ==> i == |b|
  {
    RunsPieces(t, a, b, part, last, s, pos, room);
    r, i := Run(t, s, pos, room), Fit(b, room);
    if |Flat(b)| <= room {
      AllFit(b, room);
    }
  }

  /** A call from a boundary between pieces leads to a boundary. */
  lemma CallConverts<T(!new)>(
      t: seq<T> -> Taken<T>, a: seq<seq<T>>, b: seq<seq<T>>, e: Errno, j: nat, call: Call, s: seq<T>, pos: nat)
      returns (r: Outcome<T>, f: nat)
    requires Sound(t) && TakesAll(t, a, b) && CutsHalt(t, a, e)
    requires j <= |a| && pos == |Flat(a[..j])| <= call.end <= |Flat(a)| && s == Flat(a)[..call.end]
    ensures r == Run(t, s, pos, call.room)
    ensures j <= f <= |a| && r.out == Flat(b[j..f]) && r.at == |Flat(a[..f])|
    ensures EndsWithAll(call, |Flat(a)|, |Flat(b)|) ==> f == |a|
  {
    var m, a1, b1, part, last := Arrived(t, a, b, e, j, call.end, s, pos);
    var i;
    r, i := RunFrom(t, s, pos, call.room, a1, b1, part, last);
    f := Lands(a, b, j, pos, a1, b1, i, r.out, r.at);
  }

  lemma CallsOnce<T(!new)>(t: seq<T> -> Taken<T>, s: seq<T>, pos: nat, calls: seq<Call>, r: Outcome<T>)
      returns (later: (seq<T>, nat))
    requires Sound(t) && calls != [] && Growing(calls, pos, |s|) && r == Run(t, s[..calls[0].end], pos, calls[0].room)
    ensures Growing(calls[1..], r.at, |s|) && later == Calls(t, s, r.at, calls[1..])
    ensures Calls(t, s, pos, calls) == (r.out + later.0, later.1)
  {
    GrowsFrom(calls[1..], calls[0].end, |s|, r.at);
    later := Calls(t, s, r.at, calls[1..]);
  }

  function Together<T>(out: seq<T>, later: (seq<T>, nat)): (seq<T>, nat) { (out + later.0, later.1) }

  lemma NothingBefore<T>(later: (seq<T>, nat))
    ensures Together([], later) == later
  {
    assert [] + later.0 == later.0;
  }

  lemma NothingAfter<T(!new)>(t: seq<T> -> Taken<T>, s: seq<T>, out: seq<T>, at: nat)
    requires Sound(t) && at <= |s|
    ensures Growing([], at, |s|) && Together(out, Calls(t, s, at, [])) == (out, at)
  {
    assert out + [] == out;
  }

  /** What one more call adds to what has been written. */
  lemma NextCall<T(!new)>(
      t: seq<T> -> Taken<T>, s: seq<T>, pos: nat, calls: seq<Call>, out: seq<T>, at: nat, written: seq<T>)
    requires Sound(t) && calls != [] && Growing(calls, pos, |s|)
    requires var r := Run(t, s[..calls[0].end], pos, calls[0].room); r.out == out && r.at == at
    ensures Growing(calls[1..], at, |s|)
    ensures Together(written, Calls(t, s, pos, calls)) == Together(written + out, Calls(t, s, at, calls[1..]))
  {
    var later := CallsOnce(t, s, pos, calls, Run(t, s[..calls[0].end], pos, calls[0].room));
    assert written + (out + later.0) == written + out + later.0;
  }

  lemma FlatMiddle<T>(b: seq<seq<T>>, j: nat, f: nat, k: nat)
    requires j <= f <= k <= |b|
    ensures Flat(b[j..f]) + Flat(b[f..k]) == Flat(b[j..k])
  {
    FlatSplits(b[j..k], f - j);
    assert b[j..k][..f - j] == b[j..f] && b[j..k][f - j..] == b[f..k];
  }

  /** Together they have converted some number of whole pieces, and all if the last one can. */
  lemma {:induction false} CallsConvert<T(!new)>(
      t: seq<T> -> Taken<T>, a: seq<seq<T>>, b: seq<seq<T>>, e: Errno, j: nat, calls: seq<Call>) returns (k: nat)
    requires Sound(t) && TakesAll(t, a, b) && CutsHalt(t, a, e)
    requires j <= |a| && Growing(calls, |Flat(a[..j])|, |Flat(a)|)
    ensures j <= k <= |a| && Calls(t, Flat(a), |Flat(a[..j])|, calls) == (Flat(b[j..k]), |Flat(a[..k])|)
    ensures calls != [] && EndsWithAll(calls[|calls| - 1], |Flat(a)|, |Flat(b)|) ==> k == |a|
    decreases |calls|
  {
    if calls == [] {
      k := j;
    } else {
      var (s, pos) := (Flat(a), |Flat(a[..j])|);
      var r, f := CallConverts(t, a, b, e, j, calls[0], s[..calls[0].end], pos);
      var later := CallsOnce(t, s, pos, calls, r);
      k := CallsConvert(t, a, b, e, f, calls[1..]);
      FlatMiddle(b, j, f, k);
      assert |calls| > 1 ==> calls[1..][|calls| - 2] == calls[|calls| - 1];
    }
  }

  /** From the beginning; nothing is left to be written when nothing is left to be read. */
  lemma CallsFromStart<T(!new)>(t: seq<T> -> Taken<T>, a: seq<seq<T>>, b: seq<seq<T>>, e: Errno, calls: seq<Call>)
      returns (out: seq<T>, at: nat, k: nat)
    requires Sound(t) && TakesAll(t, a, b) && CutsHalt(t, a, e) && Growing(calls, 0, |Flat(a)|)
    ensures (out, at) == Calls(t, Flat(a), 0, calls)
    ensures k <= |a| && out == Flat(b[..k]) && at == |Flat(a[..k])|
    ensures at == |Flat(a)| ==> out == Flat(b)
    ensures calls != [] && EndsWithAll(calls[|calls| - 1], |Flat(a)|, |Flat(b)|) ==> at == |Flat(a)|
  {
    assert a[..0] == [];
    k := CallsConvert(t, a, b, e, 0, calls);
    out, at := Flat(b[..k]), |Flat(a[..k])|;
    assert b[0..k] == b[..k];
    NoneEmpty(t, a, b);
    ConsumedAll(a, k);
    assert a[..|a|] == a && b[..|b|] == b;
  }

  lemma NoneEmpty<T(!new)>(t: seq<T> -> Taken<T>, a: seq<seq<T>>, b: seq<seq<T>>)
    requires TakesAll(t, a, b)
    ensures forall i | 0 <= i < |a| :: a[i] != []
  {
    forall i | 0 <= i < |a| ensures a[i] != [] {
      assert TakesPiece(t, a[i], b[i]);
    }
  }

  /** A call with all of the input and room for all of the output. */
  predicate EndsWithAll(call: Call, input: nat, output: nat) { call.end == input && call.room >= output }

  lemma {:induction false} Stuck<T(!new)>(t: seq<T> -> Taken<T>, s: seq<T>, pos: nat, b: seq<T>, room: nat)
    requires Sound(t) && pos < |s| && t(s[pos..]) == Took(b, 0)
    ensures var r := Run(t, s, pos, room); r.at == pos && r.stop == Stopped(E2BIG)
    decreases room
  {
    RunOnce(t, s, pos, room);
    if |b| <= room {
      Stuck(t, s, pos, b, room - |b|);
    }
  }

  /** How a run that takes a piece ends: for want of room, or as it ends from there on. */
  lemma StopAfter<T(!new)>(t: seq<T> -> Taken<T>, s: seq<T>, pos: nat, room: nat, head: seq<T>, rest: seq<T>, b: seq<T>)
      returns (next: nat, left: int)
    requires Sound(t) && pos <= |s| && s[pos..] == head + rest && head != [] && t(head + rest) == Took(b, |head|)
    ensures pos <= next <= |s| && s[next..] == rest
    ensures Run(t, s, pos, room).stop == if left < 0 then Stopped(E2BIG) else Run(t, s, next, left).stop
  {
    next, left := pos + |head|, room - |b|;
    DropHead(s, pos, head, rest);
    RunOnce(t, s, pos, room);
  }
}
