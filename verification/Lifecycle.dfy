// pthread_exit, pthread_join and pthread_detach of one thread, called the target,
// as a transition system: bionic/libc/bionic/pthread_exit.cpp, pthread_join.cpp,
// pthread_detach.cpp and __pthread_internal_remove_and_free.

module Lifecycle {
  import opened Common
  import opened Threads

  datatype JoinState = NotJoined | ExitedNotJoined | Joined | Detached

  /** What the target is doing. */
  datatype TargetPc =
    | Live
    | DetachSelf(seen: JoinState)   // pthread_detach(pthread_self())
    | ExitCas(seen: JoinState)      // weak compare-exchange to ExitedNotJoined
    | ForgetTid                     // __set_tid_address(NULL)
    | Unlink                        // __pthread_internal_remove
    | Teardown                      // _exit_with_stack_teardown
    | LeaveMapping                  // __pthread_unmap_tls, then __exit
    | KernelClear                   // the kernel stores 0 in tid
    | KernelWake                    // and wakes one waiter on it
    | Gone

  /** What another thread is doing with the target's handle. */
  datatype Pc =
    | Idle
    | JFind                         // __pthread_internal_find
    | JCas(seen: JoinState)         // weak compare-exchange to Joined
    | JReadTid                      // pid_t tid = thread->tid
    | JCheck(tid: int)              // *tid_ptr != 0
    | JGoSleep(tid: int)            // futex_wait(tid_ptr, tid)
    | JAsleep(tid: int)
    | JUnlink                       // __pthread_internal_remove
    | JFree                         // __pthread_internal_free
    | DFind
    | DCas(seen: JoinState)         // weak compare-exchange to Detached

  /** `ownMapping` is mmap_size != 0. */
  datatype State = State(join: JoinState, tid: int, clearTid: bool, listed: bool, mapped: bool,
                         ownMapping: bool, target: TargetPc, pc: map<Tid, Pc>)

  datatype Event =
    | Quiet
    | ReturnsZero
    | NoSuchThread       // ESRCH
    | Invalid            // EINVAL
    | DetachOk
    | Unlinked           // the record leaves the thread list
    | Unmapped           // its mapping is released

  datatype Action =
    | StartJoin(tid: Tid)
    | StartDetach(tid: Tid)
    | Run(tid: Tid, spurious: bool)
    | Interrupt(tid: Tid)
    | TargetDetach
    | TargetExit
    | TargetRun(spurious: bool, woken: Option<Tid>)

  /** A call that looks at join_state does so through a handle that is still valid. */
  predicate Enabled(s: State, a: Action) {
    match a
    case StartJoin(t) => t in s.pc && s.pc[t].Idle?
    case StartDetach(t) => t in s.pc && s.pc[t].Idle?
    case Run(t, spurious) =>
      && t in s.pc && !s.pc[t].Idle? && !s.pc[t].JAsleep?
      && (spurious ==> s.pc[t].JCas? || s.pc[t].DCas?)
      && (s.pc[t].JCas? || s.pc[t].DCas? ==> s.mapped)
    case Interrupt(t) => t in s.pc && s.pc[t].JAsleep?
    case TargetDetach => s.target.Live?
    case TargetExit => s.target.Live?
    case TargetRun(spurious, woken) =>
      && !s.target.Live? && !s.target.Gone?
      && (spurious ==> s.target.ExitCas? || s.target.DetachSelf?)
      && (woken.Some? ==> s.target.KernelWake? && woken.value in s.pc && s.pc[woken.value].JAsleep?)
      && (s.target.KernelWake? && woken.None? ==> forall u | u in s.pc :: !s.pc[u].JAsleep?)
  }

  function MoveTo(s: State, t: Tid, pc: Pc): State {
    s.(pc := s.pc[t := pc])
  }

  /** The loop tests of pthread_join and pthread_detach on a freshly read join_state. */
  function JoinTest(j: JoinState): (Pc, Event) {
    if j.NotJoined? || j.ExitedNotJoined? then (JCas(j), Quiet) else (Idle, Invalid)
  }

  function DetachTest(j: JoinState): (Pc, Event) {
    if j.NotJoined? then (DCas(j), Quiet)
    else if j.ExitedNotJoined? then (JFind, Quiet)
    else (Idle, Invalid)
  }

  function Next(s: State, t: Tid, spurious: bool): (State, Event)
    requires t in s.pc
  {
    match s.pc[t]
    case JFind => if s.listed then (MoveTo(s, t, JCas(NotJoined)), Quiet) else (MoveTo(s, t, Idle), NoSuchThread)
    case JCas(seen) =>
      if s.join == seen && !spurious then (MoveTo(s.(join := Joined), t, JReadTid), Quiet)
      else var (pc, e) := JoinTest(s.join); (MoveTo(s, t, pc), e)
    case JReadTid => (MoveTo(s, t, JCheck(s.tid)), Quiet)
    case JCheck(tid) => (MoveTo(s, t, if s.tid != 0 then JGoSleep(tid) else JUnlink), Quiet)
    case JGoSleep(tid) => (MoveTo(s, t, if s.tid == tid then JAsleep(tid) else JCheck(tid)), Quiet)
    case JUnlink => (MoveTo(s.(listed := false), t, JFree), Unlinked)
    case JFree =>
      (MoveTo(s.(mapped := s.mapped && !s.ownMapping), t, Idle), if s.ownMapping then Unmapped else ReturnsZero)
    case DFind => if s.listed then (MoveTo(s, t, DCas(NotJoined)), Quiet) else (MoveTo(s, t, Idle), NoSuchThread)
    case DCas(seen) =>
      if s.join == seen && !spurious then (MoveTo(s.(join := Detached), t, Idle), DetachOk)
      else var (pc, e) := DetachTest(s.join); (MoveTo(s, t, pc), e)
    case _ => (s, Quiet)
  }

  function NextTarget(s: State, spurious: bool, woken: Option<Tid>): (State, Event)
    requires woken.Some? ==> woken.value in s.pc && s.pc[woken.value].JAsleep?
  {
    match s.target
    case DetachSelf(seen) =>
      if s.join == seen && !spurious then (s.(join := Detached, target := Live), DetachOk)
      else if s.join.NotJoined? then (s, Quiet) else (s.(target := Live), Invalid)
    case ExitCas(seen) =>
      if s.join == seen && !spurious then (s.(join := ExitedNotJoined, target := LeaveMapping), Quiet)
      else if s.join.NotJoined? then (s, Quiet)
      else (s.(target := if s.join.Detached? then ForgetTid else LeaveMapping), Quiet)
    case ForgetTid => (s.(clearTid := false, target := Unlink), Quiet)
    case Unlink => (s.(listed := false, target := if s.ownMapping then Teardown else LeaveMapping), Unlinked)
    case Teardown => (s.(mapped := false, target := Gone), Unmapped)
    case LeaveMapping => (s.(target := if s.clearTid then KernelClear else Gone), Quiet)
    case KernelClear => (s.(tid := 0, target := KernelWake), Quiet)
    case KernelWake =>
      var s' := s.(target := Gone);
      (if woken.Some? then MoveTo(s', woken.value, JCheck(s.pc[woken.value].tid)) else s', Quiet)
    case _ => (s, Quiet)
  }

  function Do(s: State, a: Action): (State, Event)
    requires Enabled(s, a)
  {
    match a
    case StartJoin(t) => (MoveTo(s, t, JFind), Quiet)
    case StartDetach(t) => (MoveTo(s, t, DFind), Quiet)
    case Run(t, spurious) => Next(s, t, spurious)
    case Interrupt(t) => (MoveTo(s, t, JCheck(s.pc[t].tid)), Quiet)
    case TargetDetach => (s.(target := DetachSelf(NotJoined)), Quiet)
    case TargetExit => (s.(target := ExitCas(NotJoined)), Quiet)
    case TargetRun(spurious, woken) => NextTarget(s, spurious, woken)
  }

  /** A thread created joinable or detached, just started. */
  ghost predicate Init(s: State) {
    && (s.join.NotJoined? || s.join.Detached?) && s.tid > 0 && s.clearTid && s.listed && s.mapped && s.target.Live?
    && forall t | t in s.pc :: s.pc[t].Idle?
  }

  // ---------------------------------------------------------------- every run

  /** How often the record was unlinked and its mapping released. */
  datatype World = World(s: State, unlinks: nat, unmaps: nat)

  ghost function Step(w: World, a: Action): World
    requires Enabled(w.s, a)
  {
    var (s', e) := Do(w.s, a);
    World(s', w.unlinks + One(e.Unlinked?), w.unmaps + One(e.Unmapped?))
  }

  ghost predicate IsRun(ws: seq<World>, acts: seq<Action>) {
    && |ws| == |acts| + 1 && Init(ws[0].s) && ws[0].unlinks == 0 && ws[0].unmaps == 0
    && forall i | 0 <= i < |acts| :: Enabled(ws[i].s, acts[i]) && ws[i + 1] == Step(ws[i], acts[i])
  }

  ghost predicate Reachable(w: World) {
    exists ws, acts :: IsRun(ws, acts) && w == ws[|acts|]
  }

  /** The thread has won the join and has not finished. */
  predicate Winning(pc: Pc) {
    pc.JReadTid? || pc.JCheck? || pc.JGoSleep? || pc.JAsleep? || pc.JUnlink? || pc.JFree?
  }

  /** The target frees itself. */
  predicate SelfFreeing(p: TargetPc) {
    p.ForgetTid? || p.Unlink? || p.Teardown?
  }

  predicate Leaving(p: TargetPc) {
    p.LeaveMapping? || p.KernelClear? || p.KernelWake? || p.Gone?
  }

  ghost predicate RecordOk(w: World) {
    var s := w.s;
    && (w.unlinks == if s.listed then 0 else 1)
    && (w.unmaps == if s.mapped then 0 else 1)
    && (!s.mapped ==> !s.listed && s.ownMapping)
    && (s.tid == 0 <==> s.target.KernelWake? || (s.target.Gone? && s.clearTid))
    && s.tid >= 0
  }

  ghost predicate TargetOk(w: World) {
    var s := w.s;
    && (SelfFreeing(s.target) ==> s.join.Detached? && s.mapped && (s.listed <==> !s.target.Teardown?))
    && (s.clearTid <==> !(s.join.Detached? && (s.target.Unlink? || s.target.Teardown? || Leaving(s.target))))
    && (s.join.Detached? && Leaving(s.target) ==> !s.listed && (s.mapped <==> !s.ownMapping))
    && (s.join.ExitedNotJoined? ==> Leaving(s.target) && s.listed && s.mapped)
    && (s.join.NotJoined? ==> !Leaving(s.target) && !SelfFreeing(s.target) && s.listed && s.mapped)
    && (s.target.KernelClear? || s.target.KernelWake? ==> s.clearTid)
    && (!Leaving(s.target) && !SelfFreeing(s.target) ==> s.listed && s.mapped)
    && ((s.target.DetachSelf? || s.target.ExitCas?) ==> s.target.seen.NotJoined?)
    && (s.target.Teardown? ==> s.ownMapping)
    && (s.join.Detached? && s.target.LeaveMapping? ==> !s.ownMapping)
  }

  ghost predicate JoinersOk(w: World) {
    var s := w.s;
    && (forall t | t in s.pc ::
          && (Winning(s.pc[t]) ==> s.join.Joined? && s.mapped && (s.listed <==> !s.pc[t].JFree?))
          && (s.pc[t].JUnlink? || s.pc[t].JFree? ==> s.tid == 0)
          && (s.pc[t].JGoSleep? || s.pc[t].JAsleep? ==> s.pc[t].tid != 0)
          && (s.pc[t].JCas? ==> s.pc[t].seen.NotJoined? || s.pc[t].seen.ExitedNotJoined?)
          && (s.pc[t].DCas? ==> s.pc[t].seen.NotJoined?)
          && (s.pc[t].JCheck? || s.pc[t].JGoSleep? || s.pc[t].JAsleep? ==> s.tid != 0 ==> s.pc[t].tid == s.tid))
    && (forall t, u | t in s.pc && u in s.pc && Winning(s.pc[t]) && Winning(s.pc[u]) :: t == u)
    && (s.join.Joined? && s.listed ==> exists t :: t in s.pc && Winning(s.pc[t]))
    && (s.join.Joined? && !s.listed && s.mapped && s.ownMapping ==> exists t :: t in s.pc && s.pc[t].JFree?)
    && (s.join.Joined? && !s.listed ==> s.tid == 0)
  }

  /** A joiner asleep will be woken: the target is not gone yet. */
  ghost predicate SleeperOwed(s: State) {
    forall t | t in s.pc && s.pc[t].JAsleep? :: !s.target.Gone?
  }

  ghost predicate Inv(w: World) {
    RecordOk(w) && TargetOk(w) && JoinersOk(w) && SleeperOwed(w.s)
  }

  lemma MoveStep(w: World, t: Tid, pc: Pc)
    requires Inv(w) && t in w.s.pc && Winning(w.s.pc[t]) == Winning(pc)
    requires !w.s.pc[t].JFree? && !pc.JFree?
    requires pc.JUnlink? ==> w.s.tid == 0
    requires pc.JCas? ==> pc.seen.NotJoined? || pc.seen.ExitedNotJoined?
    requires pc.DCas? ==> pc.seen.NotJoined?
    requires pc.JCheck? || pc.JGoSleep? || pc.JAsleep? ==> w.s.tid != 0 ==> pc.tid == w.s.tid
    requires pc.JAsleep? ==> !w.s.target.Gone?
    requires pc.JGoSleep? || pc.JAsleep? ==> pc.tid != 0
    ensures Inv(w.(s := MoveTo(w.s, t, pc)))
  {
    var s' := MoveTo(w.s, t, pc);
    assert forall u | u in w.s.pc && u != t :: s'.pc[u] == w.s.pc[u];
    if w.s.join.Joined? && w.s.listed {
      var u :| u in w.s.pc && Winning(w.s.pc[u]);
      assert u in s'.pc && Winning(s'.pc[u]);
    }
  }

  /** A thread wins the join. */
  lemma WinStep(w: World, t: Tid)
    requires Inv(w) && t in w.s.pc && w.s.pc[t].JCas? && w.s.join == w.s.pc[t].seen
    ensures Inv(w.(s := MoveTo(w.s.(join := Joined), t, JReadTid)))
  {
    var s' := MoveTo(w.s.(join := Joined), t, JReadTid);
    assert Winning(s'.pc[t]);
    assert forall u | u in w.s.pc && u != t :: s'.pc[u] == w.s.pc[u] && !Winning(w.s.pc[u]);
  }

  /** The winner cleans up. */
  lemma CleanStep(w: World, t: Tid)
    requires Inv(w) && t in w.s.pc && (w.s.pc[t].JUnlink? || w.s.pc[t].JFree?)
    ensures w.s.pc[t].JUnlink? ==>
      Inv(w.(s := MoveTo(w.s.(listed := false), t, JFree), unlinks := w.unlinks + 1))
    ensures w.s.pc[t].JFree? ==>
      Inv(w.(s := MoveTo(w.s.(mapped := w.s.mapped && !w.s.ownMapping), t, Idle),
        unmaps := w.unmaps + One(w.s.ownMapping)))
  {
    var pc := if w.s.pc[t].JUnlink? then JFree else Idle;
    assert forall u | u in w.s.pc && u != t :: MoveTo(w.s, t, pc).pc[u] == w.s.pc[u] && !Winning(w.s.pc[u]);
    assert MoveTo(w.s, t, pc).pc[t] == pc;
  }

  lemma DetachStep(w: World, t: Tid)
    requires Inv(w) && t in w.s.pc && w.s.pc[t].DCas? && w.s.join == w.s.pc[t].seen
    ensures Inv(w.(s := MoveTo(w.s.(join := Detached), t, Idle)))
  {
    var s' := MoveTo(w.s.(join := Detached), t, Idle);
    assert forall u | u in s'.pc :: u in w.s.pc && !Winning(s'.pc[u]);
  }

  predicate Searching(pc: Pc) {
    pc.JFind? || pc.DFind? || pc.JReadTid? || pc.JCheck? || pc.JGoSleep?
  }

  lemma SearchStep(w: World, a: Action)
    requires Inv(w) && Enabled(w.s, a) && a.Run? && Searching(w.s.pc[a.tid])
    ensures Inv(Step(w, a))
  {
    var pc := Do(w.s, a).0.pc[a.tid];
    assert Step(w, a) == w.(s := MoveTo(w.s, a.tid, pc));
    MoveStep(w, a.tid, pc);
  }

  lemma CasStep(w: World, a: Action)
    requires Inv(w) && Enabled(w.s, a) && a.Run? && (w.s.pc[a.tid].JCas? || w.s.pc[a.tid].DCas?)
    ensures Inv(Step(w, a))
  {
    var (t, p, pc) := (a.tid, w.s.pc[a.tid], Do(w.s, a).0.pc[a.tid]);
    if w.s.join == p.seen && !a.spurious {
      if p.JCas? { WinStep(w, t); } else { DetachStep(w, t); }
    } else {
      assert Step(w, a) == w.(s := MoveTo(w.s, t, pc));
      MoveStep(w, t, pc);
    }
  }

  lemma CallerStep(w: World, a: Action)
    requires Inv(w) && Enabled(w.s, a) && !a.TargetRun? && !a.TargetDetach? && !a.TargetExit?
    ensures Inv(Step(w, a))
  {
    var p := w.s.pc[a.tid];
    if a.Run? && Searching(p) { SearchStep(w, a); }
    else if a.Run? && (p.JCas? || p.DCas?) { CasStep(w, a); }
    else if a.Run? { CleanStep(w, a.tid); }
    else { MoveStep(w, a.tid, Do(w.s, a).0.pc[a.tid]); }
  }

  lemma TargetDecides(w: World, a: Action)
    requires Inv(w) && Enabled(w.s, a)
    requires a.TargetDetach? || a.TargetExit? ||
      (a.TargetRun? && (w.s.target.DetachSelf? || w.s.target.ExitCas? || w.s.target.ForgetTid?))
    ensures Inv(Step(w, a))
  {
    assert a.TargetRun? ==> a.woken.None?;
    assert w.s.join.NotJoined? ==> forall u | u in w.s.pc :: !Winning(w.s.pc[u]);
  }

  lemma TargetFrees(w: World, a: Action)
    requires Inv(w) && Enabled(w.s, a) && a.TargetRun? && (w.s.target.Unlink? || w.s.target.Teardown?)
    ensures Inv(Step(w, a))
  {
    assert forall u | u in w.s.pc :: !Winning(w.s.pc[u]);
  }

  lemma TargetDies(w: World, a: Action)
    requires Inv(w) && Enabled(w.s, a) && a.TargetRun? && (w.s.target.LeaveMapping? || w.s.target.KernelClear?)
    ensures Inv(Step(w, a))
  {
    if w.s.join.Detached? { assert forall u | u in w.s.pc :: !Winning(w.s.pc[u]); }
  }

  lemma TargetWakes(w: World, a: Action)
    requires Inv(w) && Enabled(w.s, a) && a.TargetRun? && w.s.target.KernelWake?
    ensures Inv(Step(w, a))
  {
    var s' := Step(w, a).s;
    forall u | u in s'.pc ensures !s'.pc[u].JAsleep? {
      assert a.woken.Some? && u != a.woken.value ==> !Winning(w.s.pc[u]);
    }
    if w.s.join.Joined? && w.s.listed {
      var u :| u in w.s.pc && Winning(w.s.pc[u]);
      assert u in s'.pc && Winning(s'.pc[u]);
    }
  }

  lemma AnyStep(w: World, a: Action)
    requires Inv(w) && Enabled(w.s, a)
    ensures Inv(Step(w, a))
  {
    if !a.TargetRun? && !a.TargetDetach? && !a.TargetExit? { CallerStep(w, a); }
    else if !a.TargetRun? || w.s.target.DetachSelf? || w.s.target.ExitCas? ||
      w.s.target.ForgetTid? { TargetDecides(w, a); }
    else if w.s.target.Unlink? || w.s.target.Teardown? { TargetFrees(w, a); }
    else if w.s.target.KernelWake? { TargetWakes(w, a); }
    else { TargetDies(w, a); }
  }

  lemma {:induction false} RunKeepsInv(ws: seq<World>, acts: seq<Action>, n: nat)
    requires IsRun(ws, acts) && n <= |acts|
    ensures Inv(ws[n])
  {
    if n > 0 {
      RunKeepsInv(ws, acts, n - 1);
      AnyStep(ws[n - 1], acts[n - 1]);
    }
  }

  lemma ReachableInv(w: World)
    requires Reachable(w)
    ensures Inv(w)
  {
    var ws, acts :| IsRun(ws, acts) && w == ws[|acts|];
    RunKeepsInv(ws, acts, |acts|);
  }

  /**
   * The record is unlinked and its mapping released at most once, by the exiting target only
   * if it is detached, by another thread only if that thread won the join and the kernel has
   * cleared the tid.
   */
  lemma FreedOnceByTheRightThread(w: World, a: Action)
    requires Reachable(w) && Enabled(w.s, a)
    ensures w.unlinks <= 1 && w.unmaps <= w.unlinks
    ensures var e := Do(w.s, a).1; e.Unlinked? ==> w.unlinks == 0
    ensures var e := Do(w.s, a).1; e.Unmapped? ==> w.unmaps == 0 && w.unlinks == 1
    ensures var e := Do(w.s, a).1; (e.Unlinked? || e.Unmapped?) && a.TargetRun? ==> w.s.join.Detached?
    ensures var e := Do(w.s, a).1; (e.Unlinked? || e.Unmapped?) && a.Run? ==> w.s.join.Joined? && w.s.tid == 0
    ensures forall t, u | t in w.s.pc && u in w.s.pc && Winning(w.s.pc[t]) && Winning(w.s.pc[u]) :: t == u
  {
    ReachableInv(w);
  }

  /**
   * The winner, the target and the kernel touch the record only while it is mapped; the last
   * to do so are the target when it unmaps its TLS and the kernel when it clears the tid.
   */
  lemma NoUseAfterFree(w: World)
    requires Reachable(w)
    ensures forall t | t in w.s.pc && Winning(w.s.pc[t]) :: w.s.mapped
    ensures !w.s.target.Gone? && !w.s.target.KernelWake? ==> w.s.mapped
  {
    ReachableInv(w);
  }

  /** Nothing leaks: once the target is gone and all calls are over, a detached or joined record is freed. */
  lemma FreedInTheEnd(w: World)
    requires Reachable(w) && w.s.target.Gone? && forall t | t in w.s.pc :: w.s.pc[t].Idle?
    ensures w.s.join.Detached? || w.s.join.Joined? ==> w.unlinks == 1 && w.unmaps == One(w.s.ownMapping)
    ensures w.s.join.ExitedNotJoined? ==> w.unlinks == 0 && w.unmaps == 0
    ensures !w.s.join.NotJoined?
  {
    ReachableInv(w);
  }

  /** A joiner never sleeps on a thread that is gone. */
  lemma JoinerIsWoken(w: World, t: Tid)
    requires Reachable(w) && t in w.s.pc && w.s.pc[t].JAsleep?
    ensures !w.s.target.Gone?
  {
    ReachableInv(w);
  }
}
