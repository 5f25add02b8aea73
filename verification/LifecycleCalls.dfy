/** Every answer of pthread_join and pthread_detach answers the call that was made, and is true. */
module LifecycleCalls {
  import opened Common
  import opened Threads
  import opened Calls
  import opened Lifecycle

  // ---------------------------------------------------------------- the calls of a run

  datatype Request = Join | Detach

  type Visits = map<Tid, Visit<Request>>

  /** The thread that takes the step, if it is not the target or the kernel. */
  function Caller(a: Action): Option<Tid> {
    match a
    case TargetDetach => None
    case TargetExit => None
    case TargetRun(_, _) => None
    case _ => Some(a.tid)
  }

  function Begins(a: Action): Option<Request> {
    match a
    case StartJoin(_) => Some(Join)
    case StartDetach(_) => Some(Detach)
    case _ => None
  }

  /** A return value: releasing the mapping is the last that a successful join does. */
  predicate IsAnswer(e: Event) {
    !e.Quiet? && !e.Unlinked?
  }

  predicate IsZero(e: Event) { e.ReturnsZero? || e.Unmapped? }

  function Told(v: Visit<Request>, a: Action, e: Event, left: bool): Visit<Request> {
    Turn(v, Begins(a), false, IsAnswer(e), left)
  }

  /** Between finding the target and having settled with it. */
  predicate Settles(pc: Pc) { pc.JCas? || pc.DCas? }

  lemma SettlerMoves(s: State, t: Tid, spurious: bool)
    requires t in s.pc && Settles(s.pc[t])
    ensures var s' := Next(s, t, spurious).0;
      && t in s'.pc && s'.pc == s.pc[t := s'.pc[t]]
      && (s'.join == s.join || s'.join.Joined? || (s'.join.Detached? && s.pc[t].DCas? && s.pc[t].seen == s.join))
  {
  }

  lemma JoinerMoves(s: State, t: Tid, spurious: bool)
    requires t in s.pc && !Settles(s.pc[t])
    ensures var s' := Next(s, t, spurious).0; t in s'.pc && s'.pc == s.pc[t := s'.pc[t]] && s'.join == s.join
  {
    assert s.pc == s.pc[t := s.pc[t]];
  }

  /** A caller that runs moves nobody else, and leaves the join state to those who rely on it. */
  lemma RunnerMoves(s: State, t: Tid, spurious: bool)
    requires t in s.pc
    ensures var s' := Next(s, t, spurious).0;
      && t in s'.pc && s'.pc == s.pc[t := s'.pc[t]]
      && (s'.join == s.join || s'.join.Joined? || (s'.join.Detached? && s.pc[t].DCas? && s.pc[t].seen == s.join))
  {
    if Settles(s.pc[t]) { SettlerMoves(s, t, spurious); } else { JoinerMoves(s, t, spurious); }
  }

  /** The target and the kernel move at most a sleeping joiner. */
  lemma TargetMoves(s: State, spurious: bool, woken: Option<Tid>)
    requires woken.Some? ==> woken.value in s.pc && s.pc[woken.value].JAsleep?
    ensures var s' := NextTarget(s, spurious, woken).0;
      && (s'.pc == s.pc || (woken.Some? && s'.pc == s.pc[woken.value := JCheck(s.pc[woken.value].tid)]))
      && (s'.join == s.join || ((s.target.DetachSelf? || s.target.ExitCas?) && s.target.seen == s.join))
  {
  }

  /** What a step does to a thread that does not take it. */
  lemma OtherMoves(s: State, a: Action, u: Tid)
    requires Enabled(s, a) && u in s.pc && Caller(a) != Some(u)
    ensures var s' := Do(s, a).0; u in s'.pc && (s'.pc[u] == s.pc[u] || (s.pc[u].JAsleep? && s'.pc[u].JCheck?))
  {
    match a
    case Run(t, spurious) => RunnerMoves(s, t, spurious);
    case TargetRun(spurious, woken) => TargetMoves(s, spurious, woken);
    case _ =>
  }

  lemma SameThreads(s: State, a: Action)
    requires Enabled(s, a)
    ensures Do(s, a).0.pc.Keys == s.pc.Keys
  {
    match a
    case Run(t, spurious) => RunnerMoves(s, t, spurious);
    case TargetRun(spurious, woken) => TargetMoves(s, spurious, woken);
    case _ =>
  }

  ghost function NextCalls(s: State, a: Action, calls: Visits): (r: Visits)
    requires Enabled(s, a) && calls.Keys == s.pc.Keys
    ensures r.Keys == Do(s, a).0.pc.Keys
  {
    SameThreads(s, a);
    var (s', e) := Do(s, a);
    if Caller(a).None? then calls else calls[a.tid := Told(calls[a.tid], a, e, s'.pc[a.tid].Idle?)]
  }

  /** Which call each thread is in after `n` steps. */
  ghost function CallsAt(ws: seq<World>, acts: seq<Action>, n: nat): (r: Visits)
    requires IsRun(ws, acts) && n <= |acts|
    ensures r.Keys == ws[n].s.pc.Keys
  {
    if n == 0 then map t | t in ws[0].s.pc :: Outside
    else NextCalls(ws[n - 1].s, acts[n - 1], CallsAt(ws, acts, n - 1))
  }

  // ---------------------------------------------------------------- invariant

  /** A thread that detaches one that has exited already goes on to join it. */
  predicate Serves(j: JoinState, pc: Pc, v: Visit<Request>) {
    match pc
    case Idle => v.Outside?
    case DFind => v == Asked(Detach, false)
    case DCas(seen) => v == Asked(Detach, false) && seen.NotJoined?
    case _ => v == Asked(Join, false) || (v == Asked(Detach, false) && (j.ExitedNotJoined? || j.Joined?))
  }

  ghost predicate AllServe(s: State, calls: Visits) {
    && calls.Keys == s.pc.Keys
    && forall t {:trigger Serves(s.join, s.pc[t], calls[t])} | t in s.pc :: Serves(s.join, s.pc[t], calls[t])
  }

  /** What the step by `a` may tell a thread that is in call `v`; `left` if the thread is outside afterwards. */
  predicate Proper(j: JoinState, v: Visit<Request>, a: Action, e: Event, left: bool) {
    // A call starts outside the functions and is not answered by being made.
    && (Begins(a).Some? ==> v.Outside? && e.Quiet? && !left)
    // An answer goes to a call that has none yet and ends it.
    && (IsAnswer(e) ==> v.Asked? && left)
    // Only pthread_detach detaches, and it joins only a thread that has exited.
    && (e.DetachOk? ==> v.call.Detach?)
    && (IsZero(e) && v.call.Detach? ==> j.ExitedNotJoined? || j.Joined?)
    // A function returns only when it has answered.
    && (left ==> IsAnswer(e))
  }

  ghost predicate CallsKept(s: State, a: Action, calls: Visits)
    requires Enabled(s, a) && calls.Keys == s.pc.Keys
  {
    SameThreads(s, a);
    var (s', e) := Do(s, a);
    && (Caller(a).Some? ==> Proper(s.join, calls[a.tid], a, e, s'.pc[a.tid].Idle?))
    // Nobody but the thread that takes the step starts or finishes a call.
    && forall u | u in s.pc && Caller(a) != Some(u) :: s'.pc[u].Idle? <==> s.pc[u].Idle?
  }

  /** The thread that takes the step is told what it may be, and goes where its call wants it. */
  predicate RunnerOk(s: State, a: Action, v: Visit<Request>)
    requires Enabled(s, a) && a.Run?
  {
    var (s', e) := Next(s, a.tid, a.spurious);
    && a.tid in s'.pc && Proper(s.join, v, a, e, s'.pc[a.tid].Idle?)
    && Serves(s'.join, s'.pc[a.tid], Told(v, a, e, s'.pc[a.tid].Idle?))
  }

  lemma SettlerServes(s: State, a: Action, v: Visit<Request>)
    requires Enabled(s, a) && a.Run? && Serves(s.join, s.pc[a.tid], v) && Settles(s.pc[a.tid])
    ensures RunnerOk(s, a, v)
  {
  }

  lemma JoinerServes(s: State, a: Action, v: Visit<Request>)
    requires Enabled(s, a) && a.Run? && Serves(s.join, s.pc[a.tid], v) && !Settles(s.pc[a.tid])
    ensures RunnerOk(s, a, v)
  {
  }

  lemma MoverServes(s: State, a: Action, v: Visit<Request>)
    requires Enabled(s, a) && Caller(a).Some? && Serves(s.join, s.pc[a.tid], v)
    ensures var (s', e) := Do(s, a);
            && a.tid in s'.pc && Proper(s.join, v, a, e, s'.pc[a.tid].Idle?)
            && Serves(s'.join, s'.pc[a.tid], Told(v, a, e, s'.pc[a.tid].Idle?))
  {
    if a.Run? {
      if Settles(s.pc[a.tid]) { SettlerServes(s, a, v); } else { JoinerServes(s, a, v); }
    }
  }

  /** Those who compare join_state with another value than NOT_JOINED are joiners. */
  ghost predicate Expecting(s: State) {
    && (forall t | t in s.pc && s.pc[t].DCas? :: s.pc[t].seen.NotJoined?)
    && (s.target.DetachSelf? || s.target.ExitCas? ==> s.target.seen.NotJoined?)
  }

  /** A join state that a detaching joiner relies on is not left. */
  lemma StaysExited(s: State, a: Action)
    requires Enabled(s, a) && (s.join.ExitedNotJoined? || s.join.Joined?) && Expecting(s)
    ensures var j := Do(s, a).0.join; j.ExitedNotJoined? || j.Joined?
  {
    match a
    case Run(t, spurious) => RunnerMoves(s, t, spurious);
    case TargetRun(spurious, woken) => TargetMoves(s, spurious, woken);
    case _ =>
  }

  lemma OtherServes(s: State, a: Action, u: Tid, v: Visit<Request>)
    requires Enabled(s, a) && u in s.pc && Caller(a) != Some(u) && Serves(s.join, s.pc[u], v) && Expecting(s)
    ensures var s' := Do(s, a).0;
            u in s'.pc && Serves(s'.join, s'.pc[u], v) && (s'.pc[u].Idle? <==> s.pc[u].Idle?)
  {
    OtherMoves(s, a, u);
    if s.join.ExitedNotJoined? || s.join.Joined? { StaysExited(s, a); }
  }

  lemma StepServes(s: State, a: Action, calls: Visits)
    requires Enabled(s, a) && AllServe(s, calls)
    requires s.target.DetachSelf? || s.target.ExitCas? ==> s.target.seen.NotJoined?
    ensures CallsKept(s, a, calls) && AllServe(Do(s, a).0, NextCalls(s, a, calls))
  {
    SameThreads(s, a);
    var (s', calls') := (Do(s, a).0, NextCalls(s, a, calls));
    forall t | t in s.pc && s.pc[t].DCas? ensures s.pc[t].seen.NotJoined? {
      assert Serves(s.join, s.pc[t], calls[t]);
    }
    forall u | u in s.pc
      ensures Serves(s'.join, s'.pc[u], calls'[u])
      ensures Caller(a) != Some(u) ==> (s'.pc[u].Idle? <==> s.pc[u].Idle?)
    {
      assert Serves(s.join, s.pc[u], calls[u]);
      if Caller(a) == Some(u) { MoverServes(s, a, calls[u]); } else { OtherServes(s, a, u, calls[u]); }
    }
    if Caller(a).Some? {
      assert Serves(s.join, s.pc[a.tid], calls[a.tid]);
      MoverServes(s, a, calls[a.tid]);
    }
  }

  lemma {:induction false} RunServesAt(ws: seq<World>, acts: seq<Action>, n: nat)
    requires IsRun(ws, acts) && n <= |acts|
    ensures AllServe(ws[n].s, CallsAt(ws, acts, n))
  {
    if n > 0 {
      RunServesAt(ws, acts, n - 1);
      RunKeepsInv(ws, acts, n - 1);
      StepServes(ws[n - 1].s, acts[n - 1], CallsAt(ws, acts, n - 1));
    }
  }

  /** In every run each call gets one answer, of its own kind, when its function returns. */
  lemma EveryCallIsAnswered(ws: seq<World>, acts: seq<Action>, n: nat)
    requires IsRun(ws, acts) && n < |acts|
    ensures CallsKept(ws[n].s, acts[n], CallsAt(ws, acts, n))
  {
    RunServesAt(ws, acts, n);
    RunKeepsInv(ws, acts, n);
    StepServes(ws[n].s, acts[n], CallsAt(ws, acts, n));
  }

  // ---------------------------------------------------------------- what the answers mean

  /**
   * ESRCH means that the record is not listed, EINVAL that the target is joined or detached
   * already, and 0 that the call detached it, or won the join and the kernel has cleared the
   * tid, which leaves the target only its last wakeup; the record is then unlinked and freed.
   */
  lemma AnswersAreTrue(w: World, a: Action)
    requires Reachable(w) && Enabled(w.s, a)
    ensures var (s, s', e) := (w.s, Step(w, a).s, Do(w.s, a).1);
      && (e.NoSuchThread? ==> !s.listed)
      && (e.Invalid? ==> s.join.Joined? || s.join.Detached?)
      && (e.DetachOk? ==> s.join.NotJoined? && s'.join.Detached?)
      && (Caller(a).Some? && IsZero(e) ==>
            && s.join.Joined? && Winning(s.pc[a.tid]) && s.tid == 0
            && (s.target.KernelWake? || s.target.Gone?)
            && !s'.listed && (s'.mapped <==> !s'.ownMapping))
  {
    ReachableInv(w);
  }

  // ---------------------------------------------------------------- undisturbed calls

  /** Thread `t` runs on, `steps` steps at most, until it is answered or cannot go on. */
  ghost function Alone(s: State, t: Tid, steps: nat): (State, Event)
    decreases steps
  {
    var a := Run(t, false);
    if steps == 0 || !Enabled(s, a) then (s, Quiet)
    else
      var (s', e) := Next(s, t, false);
      if IsAnswer(e) then (s', e) else Alone(s', t, steps - 1)
  }

  /** The winner of a join returns 0 if the tid has been cleared, and sleeps if not. */
  ghost predicate Won(s: State, t: Tid, r: (State, Event)) {
    if s.tid == 0 then IsZero(r.1) else r.1 == Quiet && t in r.0.pc && r.0.pc[t] == JAsleep(s.tid)
  }

  lemma FreeAlone(s: State, t: Tid, steps: nat)
    requires t in s.pc && s.pc[t] == JUnlink && steps >= 2
    ensures IsZero(Alone(s, t, steps).1)
  {
    var s1 := Next(s, t, false).0;
    assert s1.pc[t] == JFree && Enabled(s1, Run(t, false));
  }

  lemma SleepAlone(s: State, t: Tid, steps: nat)
    requires t in s.pc && s.pc[t] == JGoSleep(s.tid) && steps >= 1
    ensures var (s', e) := Alone(s, t, steps); e == Quiet && t in s'.pc && s'.pc[t] == JAsleep(s.tid)
  {
    var s1 := Next(s, t, false).0;
    assert Alone(s1, t, steps - 1) == (s1, Quiet);
  }

  /** The winner looks at the tid, as it does again whenever its wait ends. */
  lemma WokenAlone(s: State, t: Tid, steps: nat)
    requires t in s.pc && s.pc[t].JCheck? && (s.tid != 0 ==> s.pc[t].tid == s.tid) && steps >= 3
    ensures Won(s, t, Alone(s, t, steps))
  {
    var s1 := Next(s, t, false).0;
    if s.tid == 0 { FreeAlone(s1, t, steps - 1); } else { SleepAlone(s1, t, steps - 1); }
  }

  lemma WinnerAlone(s: State, t: Tid, steps: nat)
    requires t in s.pc && s.pc[t] == JReadTid && steps >= 4
    ensures Won(s, t, Alone(s, t, steps))
  {
    var s1 := Next(s, t, false).0;
    assert s1.pc[t] == JCheck(s.tid) && s1.tid == s.tid;
    WokenAlone(s1, t, steps - 1);
  }

  /** A join, from the search in the thread list. */
  lemma FinderAlone(s: State, t: Tid, steps: nat)
    requires t in s.pc && s.pc[t] == JFind && (s.listed ==> s.mapped) && steps >= 7
    ensures var r := Alone(s, t, steps);
      if !s.listed then r.1 == NoSuchThread
      else if s.join.Joined? || s.join.Detached? then r.1 == Invalid
      else Won(s, t, r)
  {
    var a := Run(t, false);
    if s.listed {
      var s1 := Next(s, t, false).0;
      assert s1.pc[t] == JCas(NotJoined) && s1.join == s.join && s1.tid == s.tid && Enabled(s1, a);
      var s2 := Next(s1, t, false).0;
      if s.join.NotJoined? {
        WinnerAlone(s2, t, steps - 2);
        assert Alone(s, t, steps) == Alone(s1, t, steps - 1) == Alone(s2, t, steps - 2);
      } else if s.join.ExitedNotJoined? {
        assert s2.pc[t] == JCas(ExitedNotJoined) && s2.join == s.join && s2.tid == s.tid && Enabled(s2, a);
        var s3 := Next(s2, t, false).0;
        WinnerAlone(s3, t, steps - 3);
        assert Alone(s2, t, steps - 2) == Alone(s3, t, steps - 3);
        assert Alone(s, t, steps) == Alone(s1, t, steps - 1) == Alone(s2, t, steps - 2);
      }
    }
  }

  /** Undisturbed, pthread_join joins a thread that nobody has joined or detached, and is refused otherwise. */
  lemma JoinAlone(w: World, t: Tid)
    requires Reachable(w) && t in w.s.pc && w.s.pc[t].Idle?
    ensures var r := Alone(Step(w, StartJoin(t)).s, t, 7);
      if !w.s.listed then r.1 == NoSuchThread
      else if w.s.join.Joined? || w.s.join.Detached? then r.1 == Invalid
      else Won(w.s, t, r)
  {
    ReachableInv(w);
    FinderAlone(Step(w, StartJoin(t)).s, t, 7);
  }

  /** Undisturbed, pthread_detach detaches a running thread and joins one that has exited. */
  lemma DetachAlone(w: World, t: Tid)
    requires Reachable(w) && t in w.s.pc && w.s.pc[t].Idle?
    ensures var r := Alone(Step(w, StartDetach(t)).s, t, 9);
      if !w.s.listed then r.1 == NoSuchThread
      else if w.s.join.NotJoined? then r.1 == DetachOk
      else if w.s.join.ExitedNotJoined? then Won(w.s, t, r)
      else r.1 == Invalid
  {
    ReachableInv(w);
    var (a, s1) := (Run(t, false), Step(w, StartDetach(t)).s);
    assert s1.pc[t] == DFind && Enabled(s1, a);
    if w.s.listed {
      var s2 := Next(s1, t, false).0;
      assert s2.pc[t] == DCas(NotJoined) && s2.join == w.s.join && s2.tid == w.s.tid && Enabled(s2, a);
      if w.s.join.ExitedNotJoined? {
        var s3 := Next(s2, t, false).0;
        assert s3.pc[t] == JFind && s3.join == w.s.join && s3.tid == w.s.tid && s3.listed && s3.mapped;
        FinderAlone(s3, t, 7);
        assert Alone(s2, t, 8) == Alone(s3, t, 7);
      }
      assert Alone(s1, t, 9) == Alone(s2, t, 8);
    }
  }

  /** The target runs on, `steps` steps at most, until only the kernel's wakeup is left of it. */
  ghost function TargetAlone(s: State, steps: nat): State
    decreases steps
  {
    if steps == 0 || s.target.KernelWake? || s.target.Gone? then s
    else TargetAlone(NextTarget(s, false, None).0, steps - 1)
  }

  /**
   * Undisturbed, an exiting thread that is detached frees its record, all but a mapping that is not
   * its own; any other one leaves the record to a joiner and clears its tid.
   */
  lemma ExitAlone(w: World)
    requires Reachable(w) && w.s.target.Live?
    ensures var s' := TargetAlone(Step(w, TargetExit).s, 5);
      if w.s.join.Detached? then s'.target.Gone? && !s'.listed && (s'.mapped <==> !w.s.ownMapping)
      else
        && s'.target.KernelWake? && s'.tid == 0 && s'.listed == w.s.listed && s'.mapped == w.s.mapped
        && s'.join == if w.s.join.NotJoined? then ExitedNotJoined else w.s.join
  {
    ReachableInv(w);
    var s0 := Step(w, TargetExit).s;
    var s1 := NextTarget(s0, false, None).0;
    var s2 := NextTarget(s1, false, None).0;
    var s3 := NextTarget(s2, false, None).0;
    if w.s.join.Detached? {
      assert s1.target.ForgetTid? && s2.target.Unlink? && !s2.clearTid && !s3.listed;
      var s4 := NextTarget(s3, false, None).0;
      assert TargetAlone(s3, 2) == TargetAlone(s4, 1);
      assert TargetAlone(s4, 1).target.Gone?;
    } else {
      assert s1.target.LeaveMapping? && s2.target.KernelClear? && s3.target.KernelWake?;
      assert TargetAlone(s3, 2) == s3;
    }
    assert TargetAlone(s0, 5) == TargetAlone(s1, 4) == TargetAlone(s2, 3) == TargetAlone(s3, 2);
  }

  /** The kernel's wakeup is the last of the target, and leaves no joiner asleep. */
  lemma WakeIsLast(w: World, woken: Option<Tid>)
    requires Reachable(w) && w.s.target.KernelWake? && Enabled(w.s, TargetRun(false, woken))
    ensures var s' := Step(w, TargetRun(false, woken)).s;
      s'.target.Gone? && forall u | u in s'.pc :: !s'.pc[u].JAsleep?
  {
    ReachableInv(w);
    AnyStep(w, TargetRun(false, woken));
  }

  /** Undisturbed, a thread that detaches itself is detached, or told that it was joined or detached before. */
  lemma DetachSelfAlone(w: World)
    requires Reachable(w) && w.s.target.Live?
    ensures var (s', e) := NextTarget(Step(w, TargetDetach).s, false, None);
      && s'.target.Live?
      && if w.s.join.NotJoined? then e == DetachOk && s'.join.Detached? else e == Invalid && s'.join == w.s.join
  {
    ReachableInv(w);
  }
}
