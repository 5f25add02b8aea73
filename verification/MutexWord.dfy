/**
 * The 16-bit mutex state: the macros of pthread_mutex.cpp on the integer, and
 * the fact that they do to its fields what Mutex does, leaving the type and
 * process-shared bits alone.
 */
module MutexWord {
  import opened MutexSpec
  import opened Mutex

  type UInt16 = x: int | 0 <= x < 0x1_0000

  const COUNTER_ONE := 4

  function Low(kind: Kind): nat {
    match kind case Normal => 0 case Recursive => 1 case ErrorCheck => 2
  }

  /** x & MUTEX_STATE_MASK, x & MUTEX_COUNTER_MASK, and the two constant fields. */
  function StateBits(x: UInt16): nat { x % 4 }
  function CounterBits(x: UInt16): nat { x % 0x2000 - x % 4 }
  function SharedBits(x: UInt16): nat { x % 0x4000 - x % 0x2000 }
  function TypeBits(x: UInt16): nat { x - x % 0x4000 }

  predicate IsLockedUncontended(x: UInt16) { StateBits(x) == 1 }
  predicate IsLockedContended(x: UInt16) { StateBits(x) == 2 }
  predicate CounterWillOverflow(x: UInt16) { CounterBits(x) == 0x1ffc }
  predicate CounterIsZero(x: UInt16) { CounterBits(x) == 0 }

  /** x ^ 3. */
  function FlipContention(x: UInt16): UInt16 { x - x % 4 + (3 - x % 4) }

  /** fetch_add and fetch_sub on a 16-bit atomic. */
  function Plus(x: UInt16, d: int): UInt16 { (x + d) % 0x1_0000 }

  ghost predicate Fits(w: Word) { w.lock <= 2 && w.counter <= MAX_COUNTER }

  ghost function Encode(kind: Kind, shared: bool, w: Word): UInt16
    requires Fits(w)
  {
    0x4000 * Low(kind) + (if shared then 0x2000 else 0) + 4 * w.counter + w.lock
  }

  /** Reading: every macro picks out its own field. */
  lemma MacrosReadFields(kind: Kind, shared: bool, w: Word)
    requires Fits(w)
    ensures var x := Encode(kind, shared, w);
      && TypeBits(x) == 0x4000 * Low(kind) && SharedBits(x) == (if shared then 0x2000 else 0)
      && (IsLockedUncontended(x) <==> w.lock == 1) && (IsLockedContended(x) <==> w.lock == 2)
      && (CounterWillOverflow(x) <==> w.counter == MAX_COUNTER)
      && (CounterIsZero(x) <==> w.counter == 0)
  {
    var x := Encode(kind, shared, w);
    assert x % 4 == w.lock;
    assert x % 0x2000 == 4 * w.counter + w.lock;
    assert x % 0x4000 == 4 * w.counter + w.lock + (if shared then 0x2000 else 0);
  }

  /** Comparing whole words, as the compare-exchanges do, compares the fields. */
  lemma WordsEqualIffFields(kind: Kind, shared: bool, v: Word, w: Word)
    requires Fits(v) && Fits(w)
    ensures Encode(kind, shared, v) == Encode(kind, shared, w) <==> v == w
    ensures Encode(kind, shared, w) == TypeBits(Encode(kind, shared, v)) + SharedBits(Encode(kind, shared, v)) <==>
      w == UNLOCKED
  {
    MacrosReadFields(kind, shared, v);
    MacrosReadFields(kind, shared, w);
  }

  /** Writing: contention flips and counter steps stay inside their fields. */
  lemma MacrosWriteFields(kind: Kind, shared: bool, w: Word)
    requires Fits(w)
    ensures w.lock == 1 ==> FlipContention(Encode(kind, shared, w)) == Encode(kind, shared, w.(lock := 2))
    ensures w.counter < MAX_COUNTER ==>
              Plus(Encode(kind, shared, w), COUNTER_ONE) == Encode(kind, shared, w.(counter := w.counter + 1))
    ensures w.counter > 0 ==>
              Plus(Encode(kind, shared, w), -COUNTER_ONE) == Encode(kind, shared, w.(counter := w.counter - 1))
  {
    assert Encode(kind, shared, w) % 4 == w.lock;
  }
}
