/** Ownership, recursion depth and wakeup for every run of a mutex, timeouts included. */
module MutexProof {
  import opened Threads
  import opened MutexSpec
  import opened Mutex

  // ---------------------------------------------------------------- runs

  datatype World = World(s: State, h: Hold)

  ghost predicate Start(w: World) {
    Init(w.s) && w.h.Free?
  }

  ghost function Step(cfg: Config, w: World, a: Action): World
    requires Enabled(cfg, w.s, w.h, a)
  {
    var (s', e) := Do(cfg, w.s, w.h, a);
    World(s', After(w.h, a.tid, e))
  }

  ghost predicate IsRun(cfg: Config, ws: seq<World>, acts: seq<Action>) {
    && |ws| == |acts| + 1 && Start(ws[0])
    && forall i | 0 <= i < |acts| ::
         Enabled(cfg, ws[i].s, ws[i].h, acts[i]) && ws[i + 1] == Step(cfg, ws[i], acts[i])
  }

  ghost predicate Reachable(cfg: Config, w: World) {
    exists ws, acts :: IsRun(cfg, ws, acts) && w == ws[|acts|]
  }

  // ---------------------------------------------------------------- ownership and depth

  ghost predicate Holds(w: World, t: Tid) {
    w.h.By? && w.h.owner == t
  }

  ghost predicate WordOk(cfg: Config, w: World) {
    match w.h
    case Free => w.s.word == UNLOCKED && w.s.ownerTid == 0
    case By(t, depth) =>
      && 1 <= w.s.word.lock <= 2
      && w.s.word.counter == depth - 1 <= MAX_COUNTER
      && (!cfg.kind.Recursive? ==> depth == 1)
      && t in w.s.pc
      && (cfg.kind.Normal? ==> w.s.ownerTid == 0)
      && (!cfg.kind.Normal? ==>
            && (w.s.ownerTid == 0 || w.s.ownerTid == t)
            && (w.s.ownerTid == 0 <==> w.s.pc[t].RStore? || w.s.pc[t].UExchange?))
  }

  ghost predicate PcOk(cfg: Config, w: World, t: Tid, pc: Pc) {
    && (cfg.kind.Normal? ==> InNormal(pc) || pc.Idle? || pc.Asleep? || pc.WakeOne?)
    && (InNormal(pc) ==> cfg.kind.Normal?)
    && (pc.NUnlock? || pc.RIncrement? || pc.RStore? || pc.UDecrement? || pc.UClear? || pc.UExchange? ==> Holds(w, t))
    && (pc.ROwner? || pc.UOwner? ==> Holds(w, t) ==> pc.seen.counter == w.s.word.counter)
    && (pc.RIncrement? ==> cfg.kind.Recursive? && w.s.word.counter < MAX_COUNTER)
    && (pc.UDecrement? ==> w.s.word.counter > 0)
    && (pc.UClear? || pc.UExchange? ==> w.s.word.counter == 0)
    && (pc.RFlip? ==> pc.seen.lock == 1)
    && (pc.ROwner? ==> Plausible(pc.seen))
    && (pc.RWaitTid? || pc.RWait? ==> pc.seen.lock == 2)
  }

  /** A state that the mutex can be in. */
  predicate Plausible(w: Word) {
    w == UNLOCKED || 1 <= w.lock <= 2
  }

  ghost predicate PcsOk(cfg: Config, w: World) {
    forall t | t in w.s.pc :: PcOk(cfg, w, t, w.s.pc[t])
  }

  ghost predicate Safe(cfg: Config, w: World) {
    WordOk(cfg, w) && PcsOk(cfg, w)
  }

  // ---------------------------------------------------------------- wakeup

  /** Bound to leave the state locked_contended, or to wake a sleeper. */
  predicate Obliged(pc: Pc) {
    pc.WakeOne? || pc.NExchange? || pc.RReload? || pc.RGrab? || pc.RFlip?
  }

  ghost predicate SleepersOwed(s: State) {
    (exists t :: t in s.pc && s.pc[t].Asleep?) ==> s.word.lock == 2 || exists u :: u in s.pc && Obliged(s.pc[u])
  }

  ghost predicate Inv(cfg: Config, w: World) {
    Safe(cfg, w) && SleepersOwed(w.s)
  }

  ghost predicate Good(cfg: Config, w: World, a: Action)
    requires Enabled(cfg, w.s, w.h, a)
  {
    Legal(cfg.kind, w.h, a.tid, Do(cfg, w.s, w.h, a).1) && Safe(cfg, Step(cfg, w, a))
  }

  // ---------------------------------------------------------------- steps

  /** A step that only moves a thread. */
  lemma Moves(cfg: Config, w: World, t: Tid, pc: Pc)
    requires Safe(cfg, w) && t in w.s.pc && PcOk(cfg, w, t, pc)
    requires !w.s.pc[t].RStore? && !w.s.pc[t].UExchange? && !pc.RStore? && !pc.UExchange?
    ensures Safe(cfg, w.(s := MoveTo(w.s, t, pc)))
  {
  }

  /** Taking a free mutex. */
  lemma Takes(cfg: Config, w: World, t: Tid, word: Word)
    requires Safe(cfg, w) && t in w.s.pc && w.s.word == UNLOCKED && 1 <= word.lock <= 2 && word.counter == 0
    ensures w.h.Free?
    ensures Safe(cfg, World(MoveTo(w.s.(word := word), t, if cfg.kind.Normal? then Idle else RStore), By(t, 1)))
  {
  }

  /** Promoting a held mutex to contended. */
  lemma Promotes(cfg: Config, w: World, t: Tid, pc: Pc)
    requires Safe(cfg, w) && t in w.s.pc && w.h.By? && PcOk(cfg, w, t, pc)
    requires !w.s.pc[t].RStore? && !w.s.pc[t].UExchange? && !pc.RStore? && !pc.UExchange?
    ensures Safe(cfg, w.(s := MoveTo(w.s.(word := w.s.word.(lock := 2)), t, pc)))
  {
  }

  lemma NormalStep(cfg: Config, w: World, a: Action)
    requires Safe(cfg, w) && Enabled(cfg, w.s, w.h, a) && a.Run? && InNormal(w.s.pc[a.tid])
    ensures Good(cfg, w, a)
  {
    var (t, s', e) := (a.tid, Do(cfg, w.s, w.h, a).0, Do(cfg, w.s, w.h, a).1);
    assert PcOk(cfg, w, t, w.s.pc[t]);
    if e.Acquired? {
      Takes(cfg, w, t, s'.word);
      assert Step(cfg, w, a) == World(MoveTo(w.s.(word := s'.word), t, Idle), By(t, 1));
    } else if w.s.pc[t].NExchange? {
      Promotes(cfg, w, t, s'.pc[t]);
      assert Step(cfg, w, a) == w.(s := MoveTo(w.s.(word := w.s.word.(lock := 2)), t, s'.pc[t]));
    } else if !w.s.pc[t].NUnlock? {
      Moves(cfg, w, t, s'.pc[t]);
      assert Step(cfg, w, a) == w.(s := MoveTo(w.s, t, s'.pc[t]));
    }
  }

  lemma LoopOk(cfg: Config, w: World, t: Tid, call: Call, seen: Word, badTime: bool)
    requires Plausible(seen) && !cfg.kind.Normal?
    ensures var (pc, e) := Loop(cfg, call, seen, badTime);
            PcOk(cfg, w, t, pc) && !pc.RStore? && !pc.UExchange? && (e.Quiet? || e.GaveUp?)
  {
  }

  predicate Reading(pc: Pc) {
    pc.RLoad? || pc.RWaitTid? || pc.RWait? || pc.RReload? || pc.ULoad? || pc.UOwner? || pc.WakeOne?
  }

  lemma LockerReads(cfg: Config, w: World, a: Action)
    requires Safe(cfg, w) && Enabled(cfg, w.s, w.h, a) && a.Run?
    requires w.s.pc[a.tid].RLoad? || w.s.pc[a.tid].RWaitTid? || w.s.pc[a.tid].RWait? || w.s.pc[a.tid].RReload?
    ensures Good(cfg, w, a)
  {
    var (t, pc) := (a.tid, Do(cfg, w.s, w.h, a).0.pc[a.tid]);
    assert PcOk(cfg, w, t, w.s.pc[t]);
    assert Step(cfg, w, a) == w.(s := MoveTo(w.s, t, pc));
    if w.s.pc[t].RReload? { LoopOk(cfg, w, t, w.s.pc[t].call, w.s.word, a.badTime); }
    Moves(cfg, w, t, pc);
  }

  lemma UnlockerReads(cfg: Config, w: World, a: Action)
    requires Safe(cfg, w) && Enabled(cfg, w.s, w.h, a) && a.Run?
    requires w.s.pc[a.tid].ULoad? || w.s.pc[a.tid].UOwner? || w.s.pc[a.tid].WakeOne?
    ensures Good(cfg, w, a)
  {
    var (t, pc) := (a.tid, Do(cfg, w.s, w.h, a).0.pc[a.tid]);
    assert PcOk(cfg, w, t, w.s.pc[t]);
    assert Step(cfg, w, a) == w.(s := MoveTo(w.s, t, pc));
    Moves(cfg, w, t, pc);
  }

  lemma ReadingStep(cfg: Config, w: World, a: Action)
    requires Safe(cfg, w) && Enabled(cfg, w.s, w.h, a) && a.Run? && Reading(w.s.pc[a.tid])
    ensures Good(cfg, w, a)
  {
    var pc := w.s.pc[a.tid];
    if pc.ULoad? || pc.UOwner? || pc.WakeOne? { UnlockerReads(cfg, w, a); } else { LockerReads(cfg, w, a); }
  }

  lemma OwnerReadStep(cfg: Config, w: World, a: Action)
    requires Safe(cfg, w) && Enabled(cfg, w.s, w.h, a) && a.Run? && w.s.pc[a.tid].ROwner?
    ensures Good(cfg, w, a)
  {
    var (t, p, pc) := (a.tid, w.s.pc[a.tid], Do(cfg, w.s, w.h, a).0.pc[a.tid]);
    assert PcOk(cfg, w, t, p);
    assert Step(cfg, w, a) == w.(s := MoveTo(w.s, t, pc));
    LoopOk(cfg, w, t, p.call, p.seen, a.badTime);
    Moves(cfg, w, t, pc);
  }

  lemma GrabbingStep(cfg: Config, w: World, a: Action)
    requires Safe(cfg, w) && Enabled(cfg, w.s, w.h, a) && a.Run?
    requires w.s.pc[a.tid].RTry? || w.s.pc[a.tid].RFast? || w.s.pc[a.tid].RGrab?
    ensures Good(cfg, w, a)
  {
    var (t, s', e) := (a.tid, Do(cfg, w.s, w.h, a).0, Do(cfg, w.s, w.h, a).1);
    assert PcOk(cfg, w, t, w.s.pc[t]);
    if e.Acquired? {
      Takes(cfg, w, t, s'.word);
      assert Step(cfg, w, a) == World(MoveTo(w.s.(word := s'.word), t, RStore), By(t, 1));
    } else {
      assert Step(cfg, w, a) == w.(s := MoveTo(w.s, t, s'.pc[t]));
      if !w.s.pc[t].RTry? { LoopOk(cfg, w, t, w.s.pc[t].call, w.s.word, a.badTime); }
      Moves(cfg, w, t, s'.pc[t]);
    }
  }

  lemma FlippingStep(cfg: Config, w: World, a: Action)
    requires Safe(cfg, w) && Enabled(cfg, w.s, w.h, a) && a.Run? && w.s.pc[a.tid].RFlip?
    ensures Good(cfg, w, a)
  {
    var (t, s') := (a.tid, Do(cfg, w.s, w.h, a).0);
    assert PcOk(cfg, w, t, w.s.pc[t]);
    LoopOk(cfg, w, t, w.s.pc[t].call, w.s.word, a.badTime);
    if w.s.word == w.s.pc[t].seen && !a.spurious {
      assert Step(cfg, w, a) == w.(s := MoveTo(w.s.(word := w.s.word.(lock := 2)), t, s'.pc[t]));
      Promotes(cfg, w, t, s'.pc[t]);
    } else {
      assert Step(cfg, w, a) == w.(s := MoveTo(w.s, t, s'.pc[t]));
      Moves(cfg, w, t, s'.pc[t]);
    }
  }

  lemma OwnerStep(cfg: Config, w: World, a: Action)
    requires Safe(cfg, w) && Enabled(cfg, w.s, w.h, a) && a.Run?
    requires w.s.pc[a.tid].RIncrement? || w.s.pc[a.tid].RStore? || w.s.pc[a.tid].UClear?
    ensures Good(cfg, w, a)
  {
    assert PcOk(cfg, w, a.tid, w.s.pc[a.tid]);
  }

  lemma ReleasingStep(cfg: Config, w: World, a: Action)
    requires Safe(cfg, w) && Enabled(cfg, w.s, w.h, a) && a.Run?
    requires w.s.pc[a.tid].UDecrement? || w.s.pc[a.tid].UExchange?
    ensures Good(cfg, w, a)
  {
    assert PcOk(cfg, w, a.tid, w.s.pc[a.tid]);
  }

  lemma RunStep(cfg: Config, w: World, a: Action)
    requires Safe(cfg, w) && Enabled(cfg, w.s, w.h, a) && a.Run?
    ensures Good(cfg, w, a)
  {
    var pc := w.s.pc[a.tid];
    if InNormal(pc) { NormalStep(cfg, w, a); }
    else if Reading(pc) { ReadingStep(cfg, w, a); }
    else if pc.ROwner? { OwnerReadStep(cfg, w, a); }
    else if pc.RFlip? { FlippingStep(cfg, w, a); }
    else if pc.RTry? || pc.RFast? || pc.RGrab? { GrabbingStep(cfg, w, a); }
    else if pc.UDecrement? || pc.UExchange? { ReleasingStep(cfg, w, a); }
    else { OwnerStep(cfg, w, a); }
  }

  lemma OtherStep(cfg: Config, w: World, a: Action)
    requires Safe(cfg, w) && Enabled(cfg, w.s, w.h, a) && !a.Run? && !a.Wake?
    ensures Good(cfg, w, a)
  {
    var (t, pc) := (a.tid, Do(cfg, w.s, w.h, a).0.pc[a.tid]);
    assert PcOk(cfg, w, t, w.s.pc[t]);
    assert Step(cfg, w, a) == w.(s := MoveTo(w.s, t, pc));
    Moves(cfg, w, t, pc);
  }

  lemma WakeStep(cfg: Config, w: World, a: Action)
    requires Safe(cfg, w) && Enabled(cfg, w.s, w.h, a) && a.Wake?
    ensures Good(cfg, w, a)
  {
    var p := AfterWait(cfg, w.s.pc[a.sleeper].call);
    assert PcOk(cfg, w, a.sleeper, w.s.pc[a.sleeper]);
    Moves(cfg, w, a.sleeper, p);
    Moves(cfg, w.(s := MoveTo(w.s, a.sleeper, p)), a.tid, Idle);
  }

  lemma SafeStep(cfg: Config, w: World, a: Action)
    requires Safe(cfg, w) && Enabled(cfg, w.s, w.h, a)
    ensures Good(cfg, w, a)
  {
    if a.Run? { RunStep(cfg, w, a); }
    else if a.Wake? { WakeStep(cfg, w, a); }
    else { OtherStep(cfg, w, a); }
  }

  // ---------------------------------------------------------------- wakeup steps

  /** What every step leaves in place for the sleepers. */
  lemma SleepersKeep(s: State, s': State, t: Tid)
    requires SleepersOwed(s) && t in s.pc && t in s'.pc && s'.pc == s.pc[t := s'.pc[t]]
    requires Obliged(s.pc[t]) ==> Obliged(s'.pc[t]) || s'.word.lock == 2
    requires s.word.lock == 2 ==> Obliged(s'.pc[t]) || s'.word.lock == 2
    requires s'.pc[t].Asleep? ==> s'.word.lock == 2
    ensures SleepersOwed(s')
  {
    if s'.word.lock != 2 && !Obliged(s'.pc[t]) {
      forall u | u in s'.pc && s'.pc[u].Asleep? ensures exists v :: v in s'.pc && Obliged(s'.pc[v]) {
        assert u in s.pc && s.pc[u].Asleep?;
        var v :| v in s.pc && Obliged(s.pc[v]);
        assert v in s'.pc && Obliged(s'.pc[v]);
      }
    }
  }

  lemma NormalSleepers(cfg: Config, w: World, a: Action)
    requires Inv(cfg, w) && Enabled(cfg, w.s, w.h, a) && a.Run? && InNormal(w.s.pc[a.tid])
    ensures SleepersOwed(Step(cfg, w, a).s)
  {
    SleepersKeep(w.s, Step(cfg, w, a).s, a.tid);
  }

  lemma UnlockSleepers(cfg: Config, w: World, a: Action)
    requires Inv(cfg, w) && Enabled(cfg, w.s, w.h, a) && a.Run? && InUnlock(w.s.pc[a.tid])
    ensures SleepersOwed(Step(cfg, w, a).s)
  {
    if w.s.pc[a.tid].WakeOne? {
      assert forall u | u in Step(cfg, w, a).s.pc :: u in w.s.pc && !Step(cfg, w, a).s.pc[u].Asleep?;
    } else {
      SleepersKeep(w.s, Step(cfg, w, a).s, a.tid);
    }
  }

  lemma OwnedSleepers(cfg: Config, w: World, a: Action)
    requires Inv(cfg, w) && Enabled(cfg, w.s, w.h, a) && a.Run?
    requires !InNormal(w.s.pc[a.tid]) && !InUnlock(w.s.pc[a.tid])
    ensures SleepersOwed(Step(cfg, w, a).s)
  {
    assert PcOk(cfg, w, a.tid, w.s.pc[a.tid]);
    SleepersKeep(w.s, Step(cfg, w, a).s, a.tid);
  }

  lemma SleepersStep(cfg: Config, w: World, a: Action)
    requires Inv(cfg, w) && Enabled(cfg, w.s, w.h, a)
    ensures SleepersOwed(Step(cfg, w, a).s)
  {
    var s' := Step(cfg, w, a).s;
    if a.Run? {
      if InNormal(w.s.pc[a.tid]) { NormalSleepers(cfg, w, a); }
      else if InUnlock(w.s.pc[a.tid]) { UnlockSleepers(cfg, w, a); }
      else { OwnedSleepers(cfg, w, a); }
    } else if a.Wake? {
      assert Obliged(s'.pc[a.sleeper]);
    } else {
      SleepersKeep(w.s, s', a.tid);
    }
  }

  // ---------------------------------------------------------------- theorems over every run

  lemma {:induction false} RunKeepsInv(cfg: Config, ws: seq<World>, acts: seq<Action>, n: nat)
    requires IsRun(cfg, ws, acts) && n <= |acts|
    ensures Inv(cfg, ws[n])
  {
    if n > 0 {
      RunKeepsInv(cfg, ws, acts, n - 1);
      SafeStep(cfg, ws[n - 1], acts[n - 1]);
      SleepersStep(cfg, ws[n - 1], acts[n - 1]);
    }
  }

  lemma ReachableInv(cfg: Config, w: World)
    requires Reachable(cfg, w)
    ensures Inv(cfg, w)
  {
    var ws, acts :| IsRun(cfg, ws, acts) && w == ws[|acts|];
    RunKeepsInv(cfg, ws, acts, |acts|);
  }

  /**
   * The state is locked exactly while somebody holds the mutex, its counter is one less
   * than the owner's outstanding locks, and a thread finds its own id in owner_tid only
   * while it is the owner.
   */
  lemma StateTellsOwner(cfg: Config, w: World)
    requires Reachable(cfg, w)
    ensures w.s.word.lock == 0 <==> w.h.Free?
    ensures w.h.By? ==> w.s.word.counter + 1 == w.h.depth <= MAX_DEPTH
    ensures forall t: Tid | w.s.ownerTid == t :: Holds(w, t)
  {
    ReachableInv(cfg, w);
  }

  /**
   * Every answer is true when it is given: nobody acquires a held mutex, the owner gives it
   * up only with its last unlock, and EAGAIN means the counter is full.
   */
  lemma AnswersAreTrue(cfg: Config, w: World, a: Action)
    requires Reachable(cfg, w) && Enabled(cfg, w.s, w.h, a)
    ensures Legal(cfg.kind, w.h, a.tid, Do(cfg, w.s, w.h, a).1)
  {
    ReachableInv(cfg, w);
    SafeStep(cfg, w, a);
  }

  predicate Refuses(e: Event) { e.TooDeep? || e.Busy? || e.WouldDeadlock? || e.NotOwner? }

  lemma NormalRefuses(cfg: Config, s: State, t: Tid, badTime: bool)
    requires t in s.pc
    ensures var (s', e) := NextNormal(cfg, s, t, badTime); Refuses(e) ==> s' == MoveTo(s, t, Idle)
  {
  }

  lemma UnlockRefuses(s: State, t: Tid)
    requires t in s.pc
    ensures var (s', e) := NextUnlock(s, t); Refuses(e) ==> s' == MoveTo(s, t, Idle)
  {
  }

  lemma OwnedRefuses(cfg: Config, s: State, t: Tid, spurious: bool, badTime: bool)
    requires t in s.pc
    ensures var (s', e) := NextOwned(cfg, s, t, spurious, badTime); Refuses(e) ==> s' == MoveTo(s, t, Idle)
  {
  }

  /** A lock that would overflow the counter, or any refused call, changes neither word. */
  lemma RefusalsChangeNothing(cfg: Config, w: World, a: Action)
    requires Reachable(cfg, w) && Enabled(cfg, w.s, w.h, a)
    requires var e := Do(cfg, w.s, w.h, a).1; e.TooDeep? || e.Busy? || e.WouldDeadlock? || e.NotOwner?
    ensures Step(cfg, w, a) == w.(s := MoveTo(w.s, a.tid, Idle))
  {
    if a.Run? {
      NormalRefuses(cfg, w.s, a.tid, a.badTime);
      UnlockRefuses(w.s, a.tid);
      OwnedRefuses(cfg, w.s, a.tid, a.spurious, a.badTime);
    }
  }

  /** A sleeping locker is owed a wakeup or a contended state, however many lockers time out. */
  lemma SleeperIsOwed(cfg: Config, w: World, t: Tid)
    requires Reachable(cfg, w) && t in w.s.pc && w.s.pc[t].Asleep?
    ensures w.s.word.lock == 2 || exists u :: u in w.s.pc && Obliged(w.s.pc[u])
  {
    ReachableInv(cfg, w);
  }

  /** So nobody sleeps on a free mutex that everybody else has left alone. */
  lemma NobodyStranded(cfg: Config, w: World)
    requires Reachable(cfg, w) && w.h.Free?
    requires forall u | u in w.s.pc :: w.s.pc[u].Idle? || w.s.pc[u].Asleep?
    ensures forall u | u in w.s.pc :: w.s.pc[u].Idle?
  {
    ReachableInv(cfg, w);
  }
}
