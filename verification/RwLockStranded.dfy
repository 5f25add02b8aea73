/**
 * When a queued writer times out, an unlocking thread can spend its only wakeup
 * on it, and a reader sleeps on a free lock for ever: pthread_rwlock_unlock
 * prefers writers by pending_writer_count, which still counts a writer whose
 * futex_wait has timed out but which has not yet taken pending_lock again.
 */
module RwLockStranded {
  import opened Common
  import opened Threads
  import opened RwLockSpec
  import opened RwLock
  import opened RwLockProof

  lemma ExtendRun(cfg: Config, w: World, ws: seq<World>, acts: seq<Action>)
    requires Reachable(cfg, w) && IsPath(cfg, ws, acts) && w == ws[0]
    ensures Reachable(cfg, ws[|acts|])
  {
    var ws0, acts0 :| IsRun(cfg, ws0, acts0) && w == ws0[|acts0|];
    var (xs, bs) := (ws0 + ws[1..], acts0 + acts);
    forall i | 0 <= i < |bs|
      ensures Enabled(cfg, xs[i].s, xs[i].h, bs[i]) && xs[i + 1] == Step(cfg, xs[i], bs[i])
    {
      if |acts0| <= i {
        assert bs[i] == acts[i - |acts0|] && xs[i] == ws[i - |acts0|] && xs[i + 1] == ws[i - |acts0| + 1];
      }
    }
    assert IsRun(cfg, xs, bs);
    assert xs[|bs|] == ws[|acts|];
  }

  ghost predicate Move(cfg: Config, w: World, a: Action, w': World) {
    Enabled(cfg, w.s, w.h, a) && w' == Step(cfg, w, a)
  }

  lemma Hop(cfg: Config, w: World, a: Action, w': World)
    requires Reachable(cfg, w) && Move(cfg, w, a, w')
    ensures Reachable(cfg, w')
  {
    ExtendRun(cfg, w, [w, w'], [a]);
  }

  lemma ThreeHops(cfg: Config, w0: World, a0: Action, w1: World, a1: Action, w2: World, a2: Action, w3: World)
    requires Move(cfg, w0, a0, w1) && Move(cfg, w1, a1, w2) && Move(cfg, w2, a2, w3)
    ensures Reachable(cfg, w0) ==> Reachable(cfg, w3)
  {
    if Reachable(cfg, w0) {
      Hop(cfg, w0, a0, w1);
      Hop(cfg, w1, a1, w2);
      Hop(cfg, w2, a2, w3);
    }
  }

  const NONE := PerRole(0, 0)
  const FREE := Word(false, 0, false, false)
  const OWNED := Word(true, 0, false, false)
  const W_QUEUED := Word(true, 0, true, false)
  const BOTH_QUEUED := Word(true, 0, true, true)
  const RELEASED := Word(false, 0, true, true)
  const W_ASLEEP := Asleep(Writer, Timed)
  const W_LATE := Dequeue(Writer, true, Timed)
  const R_ASLEEP := Asleep(Reader, Timed)

  /** Thread 1 takes the lock for writing, thread 2 is a timed writer, thread 3 a timed reader. */
  function Scene(word: Word, tid: int, pending: PerRole, serial: PerRole, p1: Pc, p2: Pc, p3: Pc): World {
    World(State(word, tid, pending, serial, map[1 := p1, 2 := p2, 3 := p3]),
          Holders(if word.writer then Some(1) else None, multiset{}))
  }

  /** Thread 1 before, after and while it holds the lock and the others queue up. */
  function Before(p1: Pc): World { Scene(FREE, 0, NONE, NONE, p1, Idle, Idle) }
  function Waits(p2: Pc): World { Scene(OWNED, 1, NONE, NONE, Idle, p2, Idle) }
  function Queues(p2: Pc, p3: Pc): World { Scene(W_QUEUED, 1, PerRole(0, 1), NONE, Idle, p2, p3) }
  function Joins(p1: Pc, p2: Pc, p3: Pc): World { Scene(BOTH_QUEUED, 1, PerRole(1, 1), NONE, p1, p2, p3) }

  function Go(t: Tid): Action { Run(t, false, false) }

  const TAKEN := Scene(OWNED, 0, NONE, NONE, StoreTid, Idle, Idle)
  const W_PREPARED := Queues(Prepared(Writer, Timed, 0, false), Idle)
  const R_PREPARED := Joins(Idle, W_ASLEEP, Prepared(Reader, Timed, 0, false))
  const CLEARED := Scene(BOTH_QUEUED, 0, PerRole(1, 1), NONE, UAnd, W_LATE, R_ASLEEP)
  const WASTED := Scene(RELEASED, 0, PerRole(1, 1), PerRole(0, 1), Idle, W_LATE, R_ASLEEP)
  const LOST := Scene(Word(false, 0, false, true), 0, PerRole(1, 0), PerRole(0, 1), Idle, Idle, R_ASLEEP)

  lemma LockTaken(cfg: Config)
    ensures Reachable(cfg, Before(Idle)) ==> Reachable(cfg, TAKEN)
  {
    ThreeHops(cfg, Before(Idle), StartLock(1, Writer, Try),
              Before(Load(Writer, Try, true)), Go(1), Before(Cas(Writer, Try, true, FREE)), Go(1), TAKEN);
  }

  lemma WriterArrives(cfg: Config)
    ensures Reachable(cfg, TAKEN) ==> Reachable(cfg, Waits(Load(Writer, Timed, false)))
  {
    ThreeHops(cfg, TAKEN, Go(1), Waits(Idle), StartLock(2, Writer, Timed),
              Waits(Self(Writer, Timed)), Go(2), Waits(Load(Writer, Timed, false)));
  }

  lemma WriterQueues(cfg: Config)
    ensures Reachable(cfg, Waits(Load(Writer, Timed, false))) ==> Reachable(cfg, W_PREPARED)
  {
    ThreeHops(cfg, Waits(Load(Writer, Timed, false)), Go(2), Waits(Recheck(Writer, Timed)), Go(2),
              Waits(Enqueue(Writer, Timed)), Go(2), W_PREPARED);
  }

  lemma WriterSleeps(cfg: Config)
    ensures Reachable(cfg, W_PREPARED) ==> Reachable(cfg, Queues(W_ASLEEP, Load(Reader, Timed, false)))
  {
    ThreeHops(cfg, W_PREPARED, Go(2), Queues(W_ASLEEP, Idle), StartLock(3, Reader, Timed),
              Queues(W_ASLEEP, Self(Reader, Timed)), Go(3), Queues(W_ASLEEP, Load(Reader, Timed, false)));
  }

  lemma ReaderQueues(cfg: Config)
    ensures Reachable(cfg, Queues(W_ASLEEP, Load(Reader, Timed, false))) ==> Reachable(cfg, R_PREPARED)
  {
    ThreeHops(cfg, Queues(W_ASLEEP, Load(Reader, Timed, false)), Go(3), Queues(W_ASLEEP, Recheck(Reader, Timed)), Go(3),
              Queues(W_ASLEEP, Enqueue(Reader, Timed)), Go(3), R_PREPARED);
  }

  lemma ReaderSleeps(cfg: Config)
    requires cfg.writerTimeouts
    ensures Reachable(cfg, R_PREPARED) ==> Reachable(cfg, Joins(ULoad, W_LATE, R_ASLEEP))
  {
    ThreeHops(cfg, R_PREPARED, Go(3), Joins(Idle, W_ASLEEP, R_ASLEEP), Timeout(2, Writer),
              Joins(Idle, W_LATE, R_ASLEEP), StartUnlock(1), Joins(ULoad, W_LATE, R_ASLEEP));
  }

  lemma OneHop(cfg: Config, w: World, a: Action, w': World)
    requires Move(cfg, w, a, w')
    ensures Reachable(cfg, w) ==> Reachable(cfg, w')
  {
    if Reachable(cfg, w) { Hop(cfg, w, a, w'); }
  }

  lemma UnlockBegun(cfg: Config)
    ensures Reachable(cfg, Joins(ULoad, W_LATE, R_ASLEEP)) ==> Reachable(cfg, Joins(UTid, W_LATE, R_ASLEEP))
  {
    OneHop(cfg, Joins(ULoad, W_LATE, R_ASLEEP), Go(1), Joins(UTid, W_LATE, R_ASLEEP));
  }

  lemma OwnerTested(cfg: Config)
    ensures Reachable(cfg, Joins(UTid, W_LATE, R_ASLEEP)) ==> Reachable(cfg, Joins(UClear, W_LATE, R_ASLEEP))
  {
    OneHop(cfg, Joins(UTid, W_LATE, R_ASLEEP), Go(1), Joins(UClear, W_LATE, R_ASLEEP));
  }

  lemma OwnerCleared(cfg: Config)
    ensures Reachable(cfg, Joins(UClear, W_LATE, R_ASLEEP)) ==> Reachable(cfg, CLEARED)
  {
    OneHop(cfg, Joins(UClear, W_LATE, R_ASLEEP), Go(1), CLEARED);
  }

  const PICKING := Scene(RELEASED, 0, PerRole(1, 1), NONE, UPick, W_LATE, R_ASLEEP)
  const WAKING := Scene(RELEASED, 0, PerRole(1, 1), PerRole(0, 1), UWakeOne, W_LATE, R_ASLEEP)

  lemma LockReleased(cfg: Config)
    ensures Reachable(cfg, CLEARED) ==> Reachable(cfg, PICKING)
  {
    OneHop(cfg, CLEARED, Go(1), PICKING);
  }

  lemma WriterPicked(cfg: Config)
    ensures Reachable(cfg, PICKING) ==> Reachable(cfg, WAKING)
  {
    OneHop(cfg, PICKING, Go(1), WAKING);
  }

  lemma WakeupWasted(cfg: Config)
    ensures Reachable(cfg, WAKING) ==> Reachable(cfg, WASTED)
  {
    OneHop(cfg, WAKING, Go(1), WASTED);
  }

  lemma WriterLeaves(cfg: Config)
    ensures Reachable(cfg, WASTED) ==> Reachable(cfg, LOST)
  {
    OneHop(cfg, WASTED, Go(2), LOST);
  }

  lemma Begin(cfg: Config)
    ensures Reachable(cfg, Before(Idle))
  {
    assert IsRun(cfg, [Before(Idle)], []) && [Before(Idle)][0] == Before(Idle);
  }

  lemma LostIsReachable(cfg: Config)
    requires cfg.writerTimeouts
    ensures Reachable(cfg, LOST)
  {
    Begin(cfg);
    LockTaken(cfg);
    WriterArrives(cfg);
    WriterQueues(cfg);
    WriterSleeps(cfg);
    ReaderQueues(cfg);
    ReaderSleeps(cfg);
    UnlockBegun(cfg);
    OwnerTested(cfg);
    OwnerCleared(cfg);
    LockReleased(cfg);
    WriterPicked(cfg);
    WakeupWasted(cfg);
    WriterLeaves(cfg);
  }

  /** A concrete run that strands a reader on a free lock, in either preference mode. */
  lemma ReaderLost(cfg: Config)
    requires cfg.writerTimeouts
    ensures Reachable(cfg, LOST) && Stranded(LOST, Reader)
  {
    LostIsReachable(cfg);
    assert 3 in LOST.s.pc && Sleeping(Reader, LOST.s.pc[3]);
  }

  /** Readers can be stranded exactly when queued writers may time out. */
  lemma ReadersStrandedIff(cfg: Config)
    ensures (exists w :: Reachable(cfg, w) && Stranded(w, Reader)) <==> cfg.writerTimeouts
  {
    if cfg.writerTimeouts {
      ReaderLost(cfg);
    } else {
      forall w | Reachable(cfg, w) && Stranded(w, Reader) ensures false {
        var u :| u in w.s.pc && Sleeping(Reader, w.s.pc[u]);
        SleepingReaderIsOwed(cfg, w, u);
      }
    }
  }

  /** Writers are never stranded. */
  lemma WritersNeverStranded(cfg: Config, w: World)
    requires Reachable(cfg, w)
    ensures !Stranded(w, Writer)
  {
    if Stranded(w, Writer) {
      var u :| u in w.s.pc && Sleeping(Writer, w.s.pc[u]);
      SleepingWriterIsOwed(cfg, w, u);
    }
  }
}
