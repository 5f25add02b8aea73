// bionic/libc/bionic/__cxa_guard.cpp: one-time construction of C++ statics as a
// transition system; one step per atomic operation, sequentially consistent.

/** Section 3.3.2 of the Itanium C++ ABI: what guards owe the compiler's code. */
module GuardSpec {
  import opened Threads

  /** Who is running the initialiser, and whether one has been released. */
  datatype Phase = Fresh | Building(builder: Tid) | Complete

  datatype Event =
    | Quiet
    | Begin          // __cxa_guard_acquire returns 1
    | AlreadyDone    // __cxa_guard_acquire returns 0
    | Released       // __cxa_guard_release
    | Aborted        // __cxa_guard_abort

  ghost function After(p: Phase, t: Tid, e: Event): Phase {
    match e
    case Begin => Building(t)
    case Released => Complete
    case Aborted => Fresh
    case _ => p
  }

  ghost predicate Legal(p: Phase, t: Tid, e: Event) {
    match e
    case Quiet => true
    case Begin => p.Fresh?
    case AlreadyDone => p.Complete?
    case Released => p == Building(t)
    case Aborted => p == Building(t)
  }
}

module Guard {
  import opened Threads
  import opened GuardSpec

  const NOT_YET_STARTED := 0
  const COMPLETE := 1
  const UNDERWAY_WITHOUT_WAITER := 0x100
  const UNDERWAY_WITH_WAITER := 0x200

  datatype Pc =
    | Idle
    | Load             // load state
    | CasBegin         // not started -> underway, weak
    | CasWaiter        // underway -> underway with waiter, weak
    | GoSleep          // futex_wait(underway with waiter)
    | Asleep
    | Constructing     // acquire returned 1
    | StoreDone        // release: exchange(complete)
    | StoreFresh       // abort: exchange(not started)
    | WakeAll          // futex_wake(INT_MAX)

  datatype State = State(word: int, pc: map<Tid, Pc>)

  datatype Action =
    | StartAcquire(tid: Tid)
    | StartRelease(tid: Tid)
    | StartAbort(tid: Tid)
    | Run(tid: Tid, spurious: bool)
    | Interrupt(tid: Tid)

  predicate Enabled(s: State, a: Action) {
    && a.tid in s.pc
    && match a
       case StartAcquire(t) => s.pc[t].Idle?
       case StartRelease(t) => s.pc[t].Constructing?
       case StartAbort(t) => s.pc[t].Constructing?
       case Run(t, spurious) =>
         && !s.pc[t].Idle? && !s.pc[t].Asleep? && !s.pc[t].Constructing?
         && (spurious ==> s.pc[t].CasBegin? || s.pc[t].CasWaiter?)
       case Interrupt(t) => s.pc[t].Asleep?
  }

  function MoveTo(s: State, t: Tid, pc: Pc): State {
    s.(pc := s.pc[t := pc])
  }

  /** The head of __cxa_guard_acquire's loop on a freshly read state. */
  function Decide(word: int): (Pc, Event) {
    if word == COMPLETE then (Idle, AlreadyDone)
    else if word == NOT_YET_STARTED then (CasBegin, Quiet)
    else if word == UNDERWAY_WITHOUT_WAITER then (CasWaiter, Quiet)
    else (GoSleep, Quiet)
  }

  function WakeSleepers(pc: map<Tid, Pc>): (r: map<Tid, Pc>)
    ensures r.Keys == pc.Keys
  {
    map u | u in pc :: if pc[u].Asleep? then Load else pc[u]
  }

  function Next(s: State, t: Tid, spurious: bool): (State, Event)
    requires t in s.pc
  {
    match s.pc[t]
    case Load => var (pc, e) := Decide(s.word); (MoveTo(s, t, pc), e)
    case CasBegin =>
      if s.word == NOT_YET_STARTED && !spurious then
        (MoveTo(s.(word := UNDERWAY_WITHOUT_WAITER), t, Constructing), Begin)
      else var (pc, e) := Decide(s.word); (MoveTo(s, t, pc), e)
    case CasWaiter =>
      if s.word == UNDERWAY_WITHOUT_WAITER && !spurious then
        (MoveTo(s.(word := UNDERWAY_WITH_WAITER), t, GoSleep), Quiet)
      else var (pc, e) := Decide(s.word); (MoveTo(s, t, pc), e)
    case GoSleep => (MoveTo(s, t, if s.word == UNDERWAY_WITH_WAITER then Asleep else Load), Quiet)
    case StoreDone =>
      (MoveTo(s.(word := COMPLETE), t, if s.word == UNDERWAY_WITH_WAITER then WakeAll else Idle), Released)
    case StoreFresh =>
      (MoveTo(s.(word := NOT_YET_STARTED), t, if s.word == UNDERWAY_WITH_WAITER then WakeAll else Idle), Aborted)
    case WakeAll => (s.(pc := WakeSleepers(s.pc)[t := Idle]), Quiet)
    case _ => (s, Quiet)
  }

  function Do(s: State, a: Action): (State, Event)
    requires Enabled(s, a)
  {
    match a
    case StartAcquire(t) => (MoveTo(s, t, Load), Quiet)
    case StartRelease(t) => (MoveTo(s, t, StoreDone), Quiet)
    case StartAbort(t) => (MoveTo(s, t, StoreFresh), Quiet)
    case Run(t, spurious) => Next(s, t, spurious)
    case Interrupt(t) => (MoveTo(s, t, Load), Quiet)
  }

  ghost predicate Init(s: State) {
    s.word == NOT_YET_STARTED && forall t | t in s.pc :: s.pc[t].Idle?
  }
}

/** One initialiser at a time, completion for good, and no waiter left behind by an abort. */
module GuardProof {
  import opened Threads
  import opened GuardSpec
  import opened Guard

  datatype World = World(s: State, phase: Phase)

  ghost function Step(w: World, a: Action): World
    requires Enabled(w.s, a)
  {
    var (s', e) := Do(w.s, a);
    World(s', After(w.phase, a.tid, e))
  }

  ghost predicate StepAt(ws: seq<World>, acts: seq<Action>, i: nat)
    requires i < |acts| && |ws| == |acts| + 1
  {
    Enabled(ws[i].s, acts[i]) && ws[i + 1] == Step(ws[i], acts[i])
  }

  ghost predicate IsRun(ws: seq<World>, acts: seq<Action>) {
    && |ws| == |acts| + 1 && Init(ws[0].s) && ws[0].phase == Fresh
    && forall i: nat {:trigger StepAt(ws, acts, i)} | i < |acts| :: StepAt(ws, acts, i)
  }

  ghost predicate Reachable(w: World) {
    exists ws, acts :: IsRun(ws, acts) && w == ws[|acts|]
  }

  predicate Inside(pc: Pc) {
    pc.Constructing? || pc.StoreDone? || pc.StoreFresh?
  }

  ghost predicate PhaseOk(w: World) {
    && (w.s.word == NOT_YET_STARTED <==> w.phase.Fresh?)
    && (w.s.word == COMPLETE <==> w.phase.Complete?)
    && (w.phase.Building? ==> w.s.word == UNDERWAY_WITHOUT_WAITER || w.s.word == UNDERWAY_WITH_WAITER)
    && forall t | t in w.s.pc :: Inside(w.s.pc[t]) <==> w.phase == Building(t)
  }

  ghost predicate SleepersOwed(s: State) {
    (exists t :: t in s.pc && s.pc[t].Asleep?) ==>
      s.word == UNDERWAY_WITH_WAITER || exists u :: u in s.pc && s.pc[u].WakeAll?
  }

  ghost predicate Inv(w: World) {
    PhaseOk(w) && SleepersOwed(w.s)
  }

  lemma PhaseStep(w: World, a: Action)
    requires PhaseOk(w) && Enabled(w.s, a)
    ensures Legal(w.phase, a.tid, Do(w.s, a).1) && PhaseOk(Step(w, a))
  {
    assert Inside(w.s.pc[a.tid]) <==> w.phase == Building(a.tid);
  }

  lemma SleepersKeep(s: State, s': State, t: Tid)
    requires SleepersOwed(s) && t in s.pc && t in s'.pc && s'.pc == s.pc[t := s'.pc[t]] && !s.pc[t].WakeAll?
    requires s.word == UNDERWAY_WITH_WAITER ==> s'.word == UNDERWAY_WITH_WAITER || s'.pc[t].WakeAll?
    requires s'.pc[t].Asleep? ==> s'.word == UNDERWAY_WITH_WAITER
    ensures SleepersOwed(s')
  {
    if s'.word != UNDERWAY_WITH_WAITER && !s'.pc[t].WakeAll? {
      forall u | u in s'.pc && s'.pc[u].Asleep? ensures exists v :: v in s'.pc && s'.pc[v].WakeAll? {
        assert u in s.pc && s.pc[u].Asleep?;
        var v :| v in s.pc && s.pc[v].WakeAll?;
        assert v in s'.pc && s'.pc[v].WakeAll?;
      }
    }
  }

  lemma SleepersStep(w: World, a: Action)
    requires Inv(w) && Enabled(w.s, a)
    ensures SleepersOwed(Step(w, a).s)
  {
    var s' := Step(w, a).s;
    if a.Run? && w.s.pc[a.tid].WakeAll? {
      assert forall u | u in s'.pc :: u in w.s.pc && !s'.pc[u].Asleep?;
    } else {
      assert Inside(w.s.pc[a.tid]) <==> w.phase == Building(a.tid);
      SleepersKeep(w.s, s', a.tid);
    }
  }

  lemma {:induction false} RunKeepsInv(ws: seq<World>, acts: seq<Action>, n: nat)
    requires IsRun(ws, acts) && n <= |acts|
    ensures Inv(ws[n])
  {
    if n > 0 {
      RunKeepsInv(ws, acts, n - 1);
      assert StepAt(ws, acts, n - 1);
      PhaseStep(ws[n - 1], acts[n - 1]);
      SleepersStep(ws[n - 1], acts[n - 1]);
    }
  }

  lemma ReachableInv(w: World)
    requires Reachable(w)
    ensures Inv(w)
  {
    var ws, acts :| IsRun(ws, acts) && w == ws[|acts|];
    RunKeepsInv(ws, acts, |acts|);
  }

  /** At most one initialiser runs, and "already done" is said only after a release. */
  lemma AnswersAreTrue(w: World, a: Action)
    requires Reachable(w) && Enabled(w.s, a)
    ensures Legal(w.phase, a.tid, Do(w.s, a).1)
    ensures forall t, u | t in w.s.pc && u in w.s.pc && Inside(w.s.pc[t]) && Inside(w.s.pc[u]) :: t == u
  {
    ReachableInv(w);
    PhaseStep(w, a);
  }

  /** Completion is permanent, and visible in the first byte that the compiler's code tests. */
  lemma {:induction false} CompleteIsForever(ws: seq<World>, acts: seq<Action>, i: nat, j: nat)
    requires IsRun(ws, acts) && i <= j <= |acts| && ws[i].phase.Complete?
    ensures ws[j].phase.Complete? && ws[j].s.word == COMPLETE
  {
    RunKeepsInv(ws, acts, j);
    if i < j {
      CompleteIsForever(ws, acts, i, j - 1);
      RunKeepsInv(ws, acts, j - 1);
      assert StepAt(ws, acts, j - 1);
      PhaseStep(ws[j - 1], acts[j - 1]);
    }
  }

  /** A sleeper waits for an initialiser that is running and will see that somebody waits, or is about to be woken. */
  lemma SleeperIsOwed(w: World, t: Tid)
    requires Reachable(w) && t in w.s.pc && w.s.pc[t].Asleep?
    ensures || (w.phase.Building? && w.s.word == UNDERWAY_WITH_WAITER)
            || exists u :: u in w.s.pc && w.s.pc[u].WakeAll?
  {
    ReachableInv(w);
  }

  /** When nobody constructs and everybody else is out, nobody sleeps: aborts strand no waiter. */
  lemma NobodyStranded(w: World)
    requires Reachable(w) && forall u | u in w.s.pc :: w.s.pc[u].Idle? || w.s.pc[u].Asleep?
    requires !w.phase.Building?
    ensures forall u | u in w.s.pc :: w.s.pc[u].Idle?
  {
    ReachableInv(w);
  }
}
