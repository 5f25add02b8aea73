/**
 * The 32-bit state of a read/write lock. RwLock works on its four fields; here
 * the macros of pthread_rwlock.cpp are written on the two's complement integer
 * and shown to do to the fields what RwLock does.
 */
module RwLockWord {
  import opened RwLockSpec
  import opened RwLock

  type Int32 = x: int | -0x8000_0000 <= x < 0x8000_0000

  const READERS_FLAG := 1
  const WRITERS_FLAG := 2
  const READER_STEP := 4
  const OWNED := 0x8000_0000

  /** Two's complement addition. */
  function Plus(x: Int32, y: Int32): Int32 {
    if x + y >= 0x8000_0000 then x + y - 0x1_0000_0000
    else if x + y < -0x8000_0000 then x + y + 0x1_0000_0000 else x + y
  }

  /** x & flag, for a flag of one bit. */
  predicate HasFlag(x: Int32, flag: int)
    requires flag == READERS_FLAG || flag == WRITERS_FLAG
  {
    x / flag % 2 == 1
  }

  /** x | flag and x & ~flag. */
  function SetFlag(x: Int32, flag: int, b: bool): Int32
    requires flag == READERS_FLAG || flag == WRITERS_FLAG
  {
    if HasFlag(x, flag) == b then x else if b then x + flag else x - flag
  }

  predicate OwnedByWriter(x: Int32) { x < 0 }
  predicate OwnedByReaders(x: Int32) { x >= READER_STEP }
  predicate OwnedByReadersOrWriter(x: Int32) { x < 0 || x >= READER_STEP }
  predicate IsLastReader(x: Int32) { x / 4 == 1 }
  predicate HavePending(x: Int32) { HasFlag(x, READERS_FLAG) || HasFlag(x, WRITERS_FLAG) }

  /** x | OWNED and x & ~OWNED. */
  function AddWriterFlag(x: Int32): Int32 { if x < 0 then x else x - OWNED }
  function DropWriterFlag(x: Int32): Int32 { if x < 0 then x + OWNED else x }

  predicate CanAcquireReadLock(x: Int32, writersFirst: bool) {
    !(OwnedByWriter(x) || (writersFirst && HasFlag(x, WRITERS_FLAG)))
  }

  predicate CanAcquireWriteLock(x: Int32) { !OwnedByReadersOrWriter(x) }

  ghost function Bit(b: bool): nat { if b then 1 else 0 }

  ghost predicate Fits(w: Word) { w.readers <= MAX_READERS }

  /** Bits 31, 30-2, 1 and 0. */
  ghost function Encode(w: Word): Int32
    requires Fits(w)
  {
    4 * w.readers + 2 * Bit(w.pendingWriters) + Bit(w.pendingReaders) - OWNED * Bit(w.writer)
  }

  ghost function Decode(x: Int32): (w: Word)
    ensures Fits(w)
  {
    var low := if x < 0 then x + OWNED else x;
    Word(x < 0, low / 4, low / 2 % 2 == 1, low % 2 == 1)
  }

  lemma LowBits(k: int, b: int, c: int)
    requires 0 <= b <= 1 && 0 <= c <= 1
    ensures (4 * k + 2 * b + c) / 2 % 2 == b && (4 * k + 2 * b + c) / 1 % 2 == c && (4 * k + 2 * b + c) / 4 == k
  {
    assert (4 * k + 2 * b + c) / 2 == 2 * k + b;
  }

  lemma BitsMakeWord(x: Int32)
    ensures Encode(Decode(x)) == x
  {
  }

  lemma WordMakesBits(w: Word)
    requires Fits(w)
    ensures Decode(Encode(w)) == w
  {
    LowBits(w.readers, Bit(w.pendingWriters), Bit(w.pendingReaders));
  }

  /** Fields and bits are the same thing. */
  lemma FieldsAreBits(x: Int32, w: Word)
    requires Fits(w)
    ensures Encode(Decode(x)) == x && Decode(Encode(w)) == w
  {
    BitsMakeWord(x);
    WordMakesBits(w);
  }

  lemma FlagsOfWord(w: Word)
    requires Fits(w)
    ensures HasFlag(Encode(w), WRITERS_FLAG) == w.pendingWriters && HasFlag(Encode(w), READERS_FLAG) == w.pendingReaders
  {
    LowBits(w.readers - 0x2000_0000 * Bit(w.writer), Bit(w.pendingWriters), Bit(w.pendingReaders));
  }

  /** Every test of the source reads off the field it is named after. */
  lemma TestsReadFields(cfg: Config, w: Word)
    requires Fits(w)
    ensures OwnedByWriter(Encode(w)) <==> w.writer
    ensures !w.writer ==> (OwnedByReaders(Encode(w)) <==> w.readers > 0)
    ensures OwnedByReadersOrWriter(Encode(w)) <==> w.Held()
    ensures !w.writer ==> (IsLastReader(Encode(w)) <==> w.readers == 1)
    ensures HavePending(Encode(w)) <==> w.AnyPending()
    ensures CanAcquireReadLock(Encode(w), cfg.writersFirst) <==> CanAcquire(cfg, Reader, w)
    ensures CanAcquireWriteLock(Encode(w)) <==> CanAcquire(cfg, Writer, w)
  {
    FlagsOfWord(w);
  }

  /** Flag updates touch one field. */
  lemma UpdatesWriteFields(w: Word, b: bool)
    requires Fits(w)
    ensures SetFlag(Encode(w), READERS_FLAG, b) == Encode(w.SetPending(Reader, b))
    ensures SetFlag(Encode(w), WRITERS_FLAG, b) == Encode(w.SetPending(Writer, b))
    ensures AddWriterFlag(Encode(w)) == Encode(w.(writer := true))
    ensures DropWriterFlag(Encode(w)) == Encode(w.(writer := false))
  {
    FlagsOfWord(w);
    assert Encode(w) < 0 <==> w.writer;
  }

  /** The reader count is stepped in place and tested before it can reach bit 31. */
  lemma StepsCountReaders(w: Word)
    requires Fits(w)
    ensures !w.writer ==> (!OwnedByReaders(Plus(Encode(w), READER_STEP)) <==> w.readers >= MAX_READERS)
    ensures w.readers < MAX_READERS ==> Plus(Encode(w), READER_STEP) == Encode(Acquire(Reader, w))
    ensures w.readers > 0 ==> Plus(Encode(w), -READER_STEP) == Encode(w.(readers := w.readers - 1))
  {
    assert Encode(w) >= 0 <==> !w.writer;
  }
}
