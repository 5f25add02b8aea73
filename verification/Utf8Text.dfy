/** Whole texts: what a caller of mbrtoc32 gets, however the bytes are cut up. */
module Utf8Text {
  import opened Common
  import opened Utf8Spec
  import opened Utf8Table
  import opened Utf8Feed

  datatype Rest = Open(pending: seq<Byte>) | Broken

  /** The characters, and either the unfinished one at the end or the fact that the next one is illegal. */
  datatype Decoded = Decoded(chars: seq<Char32>, rest: Rest)

  ghost function Cons(c: Char32, d: Decoded): Decoded { d.(chars := [c] + d.chars) }

  /** A caller that passes what is left of the buffer until it is used up or refused. */
  ghost function Decode(p: seq<Byte>, s: seq<Byte>): (d: Decoded)
    requires Pending(p)
    ensures d.rest.Open? ==> Pending(d.rest.pending)
    decreases |s|
  {
    if s == [] then Decoded([], Open(p))
    else
      var f := Feed(p, s);
      match f.step
      case More(q) => Decoded([], Open(q))
      case Bad => Decoded([], Broken)
      case Char(c) => Cons(c, Decode([], s[f.used..]))
  }

  /** The same caller, given the bytes in several buffers. */
  ghost function DecodeChunks(p: seq<Byte>, chunks: seq<seq<Byte>>): Decoded
    requires Pending(p)
    decreases |chunks|, 0
  {
    if chunks == [] then Decoded([], Open(p)) else After(Decode(p, chunks[0]), chunks[1..])
  }

  ghost function After(d: Decoded, chunks: seq<seq<Byte>>): Decoded
    requires d.rest.Open? ==> Pending(d.rest.pending)
    decreases |chunks|, 1
  {
    if d.rest.Broken? then d
    else
      var e := DecodeChunks(d.rest.pending, chunks);
      e.(chars := d.chars + e.chars)
  }

  /** The decoder is the automaton, one byte after the other. */
  lemma Bytewise(p: seq<Byte>, s: seq<Byte>)
    requires Pending(p) && s != []
    ensures Decode(p, s) ==
            match Read(p, s[0])
            case More(q) => Decode(q, s[1..])
            case Bad => Decoded([], Broken)
            case Char(c) => Cons(c, Decode([], s[1..]))
  {
    var (f, r) := (Feed(p, s), Read(p, s[0]));
    if r.More? {
      var g := Feed(r.pending, s[1..]);
      assert f == g.(used := g.used + 1);
      assert s[1..][g.used..] == s[f.used..];
    } else {
      assert f == Fed(r, 1);
    }
  }

  ghost function Then(d: Decoded, s: seq<Byte>): Decoded
    requires d.rest.Open? ==> Pending(d.rest.pending)
  {
    if d.rest.Broken? then d
    else
      var e := Decode(d.rest.pending, s);
      e.(chars := d.chars + e.chars)
  }

  lemma {:induction false} DecodeAppend(p: seq<Byte>, a: seq<Byte>, b: seq<Byte>)
    requires Pending(p)
    ensures Decode(p, a + b) == Then(Decode(p, a), b)
    decreases |a|
  {
    if a == [] {
      assert a + b == b;
    } else {
      assert (a + b)[0] == a[0] && (a + b)[1..] == a[1..] + b;
      Bytewise(p, a + b);
      Bytewise(p, a);
      match Read(p, a[0])
      case More(q) => DecodeAppend(q, a[1..], b);
      case Bad =>
      case Char(c) =>
        DecodeAppend([], a[1..], b);
        ConsThen(c, Decode([], a[1..]), b);
    }
  }

  lemma ConsThen(c: Char32, d: Decoded, s: seq<Byte>)
    requires d.rest.Open? ==> Pending(d.rest.pending)
    ensures Then(Cons(c, d), s) == Cons(c, Then(d, s))
  {
    if d.rest.Open? {
      var e := Decode(d.rest.pending, s);
      assert [c] + d.chars + e.chars == [c] + (d.chars + e.chars);
    }
  }

  /** Any division of the bytes into buffers gives the same characters and the same first illegal one. */
  lemma {:induction false} Restartable(p: seq<Byte>, chunks: seq<seq<Byte>>)
    requires Pending(p)
    ensures DecodeChunks(p, chunks) == Decode(p, Flat(chunks))
    decreases |chunks|
  {
    if chunks != [] {
      var d := Decode(p, chunks[0]);
      DecodeAppend(p, chunks[0], Flat(chunks[1..]));
      if d.rest.Open? {
        Restartable(d.rest.pending, chunks[1..]);
      }
    }
  }

  // ---------------------------------------------------------------- encoding back

  ghost function EncodeAll(cs: seq<Char32>): seq<Byte> {
    if cs == [] then [] else Encoding(cs[0]) + EncodeAll(cs[1..])
  }

  lemma {:induction false} FeedIsEncoding(p: seq<Byte>, s: seq<Byte>)
    requires Pending(p)
    ensures Feed(p, s).step.Char? ==>
      var f := Feed(p, s); p + s[..f.used] == Encoding(f.step.c) && Legal(f.step.c)
    decreases |s|
  {
    if s != [] {
      match Read(p, s[0])
      case More(q) =>
        FeedIsEncoding(q, s[1..]);
        var f := Feed(p, s);
        assert p + [s[0]] + s[1..][..f.used - 1] == p + s[..f.used];
      case Bad =>
      case Char(c) =>
        ReadsExactlyEncodings(p, s[0], c);
        assert s[..1] == [s[0]];
    }
  }

  ghost predicate Covers(bytes: seq<Byte>, d: Decoded) {
    && EncodeAll(d.chars) <= bytes
    && (d.rest.Open? ==> bytes == EncodeAll(d.chars) + d.rest.pending)
    && forall i | 0 <= i < |d.chars| :: Legal(d.chars[i])
  }

  lemma CoversCons(c: Char32, bytes: seq<Byte>, d: Decoded)
    requires Covers(bytes, d) && Legal(c)
    ensures Covers(Encoding(c) + bytes, Cons(c, d))
  {
    var e := Cons(c, d);
    assert e.chars[1..] == d.chars;
    assert EncodeAll(e.chars) == Encoding(c) + EncodeAll(d.chars);
  }

  lemma CoversStep(p: seq<Byte>, s: seq<Byte>, c: Char32, k: nat, d: Decoded)
    requires k <= |s| && p + s[..k] == Encoding(c) && Legal(c) && Covers(s[k..], d)
    ensures Covers(p + s, Cons(c, d))
  {
    CoversCons(c, s[k..], d);
    assert p + s == Encoding(c) + s[k..];
  }

  lemma CoversNone(bytes: seq<Byte>, rest: Rest)
    requires rest.Open? ==> rest.pending == bytes
    ensures Covers(bytes, Decoded([], rest))
  {
  }

  /**
   * The characters' encodings are exactly the bytes up to the unfinished or
   * illegal one, so nothing else is ever taken for a character.
   */
  lemma {:induction false} DecodedIsPrefix(p: seq<Byte>, s: seq<Byte>)
    requires Pending(p)
    ensures Covers(p + s, Decode(p, s))
    decreases |s|
  {
    var f := Feed(p, s);
    if s == [] {
      assert p + s == p;
      CoversNone(p, Open(p));
    } else if f.step.Char? {
      FeedIsEncoding(p, s);
      DecodedIsPrefix([], s[f.used..]);
      assert [] + s[f.used..] == s[f.used..];
      CoversStep(p, s, f.step.c, f.used, Decode([], s[f.used..]));
    } else {
      CoversNone(p + s, if f.step.Bad? then Broken else Open(f.step.pending));
    }
  }

  /** One byte more. */
  lemma FeedsOn(p: seq<Byte>, b: Byte, rest: seq<Byte>, q: seq<Byte>)
    requires Pending(p) && Pending(q) && Read(p, b) == More(q)
    ensures Feed(p, [b] + rest) == Fed(Feed(q, rest).step, Feed(q, rest).used + 1)
  {
    assert ([b] + rest)[1..] == rest;
  }

  lemma FeedsLast(p: seq<Byte>, b: Byte, rest: seq<Byte>, c: Char32)
    requires Pending(p) && Read(p, b) == Char(c)
    ensures Feed(p, [b] + rest) == Fed(Char(c), 1)
  {
  }

  lemma {:induction false} FeedEncoding(c: Char32, k: nat, rest: seq<Byte>)
    requires k < Width(c) && Legal(c)
    ensures Pending(Encoding(c)[..k]) && Feed(Encoding(c)[..k], Encoding(c)[k..] + rest) == Fed(Char(c), Width(c) - k)
    decreases Width(c) - k
  {
    var e := Encoding(c);
    PrefixesPend(c, k);
    assert e[k..] + rest == [e[k]] + (e[k + 1..] + rest);
    if k + 1 < Width(c) {
      FeedEncoding(c, k + 1, rest);
      StillPends(c, k);
      FeedsOn(e[..k], e[k], e[k + 1..] + rest, e[..k + 1]);
    } else {
      assert e[..k] + [e[k]] == e;
      ReadsExactlyEncodings(e[..k], e[k], c);
      FeedsLast(e[..k], e[k], e[k + 1..] + rest, c);
    }
  }

  lemma StillPends(c: Char32, k: nat)
    requires k + 1 < Width(c)
    ensures Pending(Encoding(c)[..k]) && Read(Encoding(c)[..k], Encoding(c)[k]) == More(Encoding(c)[..k + 1])
  {
    EncodingIsComplete(c);
    assert Encoding(c)[..k] + [Encoding(c)[k]] == Encoding(c)[..k + 1];
  }

  /** Decoding what c32rtomb wrote gives the characters back. */
  lemma {:induction false} DecodeUndoesEncode(cs: seq<Char32>)
    requires forall i | 0 <= i < |cs| :: Width(cs[i]) > 0 && Legal(cs[i])
    ensures Decode([], EncodeAll(cs)) == Decoded(cs, Open([]))
  {
    if cs != [] {
      var (e, rest) := (Encoding(cs[0]), EncodeAll(cs[1..]));
      FeedEncoding(cs[0], 0, rest);
      assert e[..0] == [] && e[0..] == e;
      assert (e + rest)[|e|..] == rest;
      DecodeUndoesEncode(cs[1..]);
    }
  }
}
