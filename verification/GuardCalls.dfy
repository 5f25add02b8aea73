/** Every answer of a guard answers the call that was made, and undisturbed calls are answered as due. */
module GuardCalls {
  import opened Common
  import opened Threads
  import opened Calls
  import opened GuardSpec
  import opened Guard
  import opened GuardProof

  // ---------------------------------------------------------------- the calls of a run

  /** __cxa_guard_acquire, _release and _abort. */
  datatype Request = Acquire | Release | Abort

  type Visits = map<Tid, Visit<Request>>

  function Begins(a: Action): Option<Request> {
    match a
    case StartAcquire(_) => Some(Acquire)
    case StartRelease(_) => Some(Release)
    case StartAbort(_) => Some(Abort)
    case _ => None
  }

  /** Not in one of the functions: the compiler's code is before, in or after the initialiser. */
  predicate Out(pc: Pc) { pc.Idle? || pc.Constructing? }

  function Told(v: Visit<Request>, a: Action, e: Event, left: bool): Visit<Request> {
    Turn(v, Begins(a), false, !e.Quiet?, left)
  }

  lemma SameThreads(w: World, a: Action)
    requires Enabled(w.s, a)
    ensures Step(w, a).s.pc.Keys == w.s.pc.Keys
  {
  }

  ghost function NextCalls(w: World, a: Action, calls: Visits): (r: Visits)
    requires Enabled(w.s, a) && calls.Keys == w.s.pc.Keys
    ensures r.Keys == Step(w, a).s.pc.Keys
  {
    SameThreads(w, a);
    var (s', e) := Do(w.s, a);
    calls[a.tid := Told(calls[a.tid], a, e, Out(s'.pc[a.tid]))]
  }

  /** Which call each thread is in after `n` steps. */
  ghost function CallsAt(ws: seq<World>, acts: seq<Action>, n: nat): (r: Visits)
    requires IsRun(ws, acts) && n <= |acts|
    ensures r.Keys == ws[n].s.pc.Keys
  {
    if n == 0 then map t | t in ws[0].s.pc :: Outside
    else
      assert StepAt(ws, acts, n - 1);
      NextCalls(ws[n - 1], acts[n - 1], CallsAt(ws, acts, n - 1))
  }

  predicate Fits(q: Request, e: Event) {
    match e
    case Quiet => true
    case Begin => q.Acquire?
    case AlreadyDone => q.Acquire?
    case Released => q.Release?
    case Aborted => q.Abort?
  }

  // ---------------------------------------------------------------- invariant

  predicate Serves(pc: Pc, v: Visit<Request>) {
    match pc
    case Idle => v.Outside?
    case Constructing => v.Outside?
    case StoreDone => v == Asked(Release, false)
    case StoreFresh => v == Asked(Abort, false)
    case WakeAll => v == Answered(Release) || v == Answered(Abort)
    case _ => v == Asked(Acquire, false)
  }

  ghost predicate AllServe(s: State, calls: Visits) {
    && calls.Keys == s.pc.Keys
    && forall t {:trigger Serves(s.pc[t], calls[t])} | t in s.pc :: Serves(s.pc[t], calls[t])
  }

  /** What the step by `a` may tell a thread that is in call `v`; `left` if the thread is outside afterwards. */
  predicate Proper(v: Visit<Request>, a: Action, e: Event, left: bool) {
    // A call starts outside the functions and is not answered by being made.
    && (Begins(a).Some? ==> v.Outside? && e.Quiet? && !left)
    // An answer goes to a call that has none yet, and is one of that call's answers.
    && (!e.Quiet? ==> v.Asked? && Fits(v.call, e))
    // A function returns only when it has answered.
    && (left ==> v.Answered? || !e.Quiet?)
  }

  ghost predicate CallsKept(w: World, a: Action, calls: Visits)
    requires Enabled(w.s, a) && calls.Keys == w.s.pc.Keys
  {
    SameThreads(w, a);
    var (s', e) := Do(w.s, a);
    && Proper(calls[a.tid], a, e, Out(s'.pc[a.tid]))
    // Nobody but the thread that takes the step starts or finishes a call.
    && forall u | u in w.s.pc && u != a.tid :: Out(s'.pc[u]) <==> Out(w.s.pc[u])
  }

  lemma MoverServes(s: State, a: Action, v: Visit<Request>)
    requires Enabled(s, a) && Serves(s.pc[a.tid], v)
    ensures var (s', e) := Do(s, a);
            && a.tid in s'.pc && Proper(v, a, e, Out(s'.pc[a.tid]))
            && Serves(s'.pc[a.tid], Told(v, a, e, Out(s'.pc[a.tid])))
  {
  }

  lemma OtherServes(w: World, a: Action, u: Tid, v: Visit<Request>)
    requires Enabled(w.s, a) && u in w.s.pc && u != a.tid && Serves(w.s.pc[u], v)
    ensures var s' := Step(w, a).s;
            u in s'.pc && Serves(s'.pc[u], v) && (Out(s'.pc[u]) <==> Out(w.s.pc[u]))
  {
  }

  lemma StepServes(w: World, a: Action, calls: Visits)
    requires Enabled(w.s, a) && AllServe(w.s, calls)
    ensures CallsKept(w, a, calls) && AllServe(Step(w, a).s, NextCalls(w, a, calls))
  {
    SameThreads(w, a);
    var (s', calls') := (Step(w, a).s, NextCalls(w, a, calls));
    forall u | u in w.s.pc
      ensures Serves(s'.pc[u], calls'[u])
      ensures u != a.tid ==> (Out(s'.pc[u]) <==> Out(w.s.pc[u]))
    {
      assert Serves(w.s.pc[u], calls[u]);
      if u == a.tid { MoverServes(w.s, a, calls[u]); } else { OtherServes(w, a, u, calls[u]); }
    }
    assert Serves(w.s.pc[a.tid], calls[a.tid]);
    MoverServes(w.s, a, calls[a.tid]);
  }

  lemma {:induction false} RunServesAt(ws: seq<World>, acts: seq<Action>, n: nat)
    requires IsRun(ws, acts) && n <= |acts|
    ensures AllServe(ws[n].s, CallsAt(ws, acts, n))
  {
    if n > 0 {
      RunServesAt(ws, acts, n - 1);
      assert StepAt(ws, acts, n - 1);
      StepServes(ws[n - 1], acts[n - 1], CallsAt(ws, acts, n - 1));
    }
  }

  /** In every run each call gets one answer, of its own kind, before its function returns. */
  lemma EveryCallIsAnswered(ws: seq<World>, acts: seq<Action>, n: nat)
    requires IsRun(ws, acts) && n < |acts|
    ensures StepAt(ws, acts, n) && CallsKept(ws[n], acts[n], CallsAt(ws, acts, n))
  {
    assert StepAt(ws, acts, n);
    RunServesAt(ws, acts, n);
    StepServes(ws[n], acts[n], CallsAt(ws, acts, n));
  }

  // ---------------------------------------------------------------- undisturbed calls

  /** Thread `t` runs on, `steps` steps at most, until it is answered or cannot go on. */
  ghost function Alone(w: World, t: Tid, steps: nat): (World, Event)
    decreases steps
  {
    var a := Run(t, false);
    if steps == 0 || !Enabled(w.s, a) then (w, Quiet)
    else
      var e := Do(w.s, a).1;
      if e.Quiet? then Alone(Step(w, a), t, steps - 1) else (Step(w, a), e)
  }

  lemma SleepAlone(w: World, t: Tid, steps: nat)
    requires t in w.s.pc && w.s.pc[t] == GoSleep && w.s.word == UNDERWAY_WITH_WAITER && steps >= 1
    ensures var (w', e) := Alone(w, t, steps); e == Quiet && t in w'.s.pc && w'.s.pc[t] == Asleep
  {
    var w1 := Step(w, Run(t, false));
    assert Alone(w1, t, steps - 1) == (w1, Quiet);
  }

  /** Acquire from a look at the word, which is also what a woken waiter does. */
  lemma WokenAlone(w: World, t: Tid)
    requires PhaseOk(w) && t in w.s.pc && w.s.pc[t] == Load
    ensures var (w', e) := Alone(w, t, 3);
      match w.phase
      case Fresh => e == Begin
      case Complete => e == AlreadyDone
      case Building(_) => e == Quiet && t in w'.s.pc && w'.s.pc[t] == Asleep
  {
    var a := Run(t, false);
    var w1 := Step(w, a);
    if w.phase.Fresh? {
      assert w1.s.pc[t] == CasBegin && Enabled(w1.s, a);
      assert Alone(w1, t, 2).1 == Begin;
    } else if w.phase.Building? {
      if w.s.word == UNDERWAY_WITHOUT_WAITER {
        assert w1.s.pc[t] == CasWaiter && Enabled(w1.s, a);
        SleepAlone(Step(w1, a), t, 1);
      } else {
        SleepAlone(w1, t, 2);
      }
    }
  }

  /** Undisturbed, acquire starts the initialiser, says that it is done, or sleeps while it is being run. */
  lemma AcquireAlone(w: World, t: Tid)
    requires Reachable(w) && t in w.s.pc && w.s.pc[t].Idle?
    ensures var (w', e) := Alone(Step(w, StartAcquire(t)), t, 3);
      match w.phase
      case Fresh => e == Begin
      case Complete => e == AlreadyDone
      case Building(_) => e == Quiet && t in w'.s.pc && w'.s.pc[t] == Asleep
  {
    ReachableInv(w);
    PhaseStep(w, StartAcquire(t));
    WokenAlone(Step(w, StartAcquire(t)), t);
  }

  /**
   * Release and abort by the thread that runs the initialiser do what they say at their first step,
   * and go on to wake the waiters exactly if the word says that there are some.
   */
  lemma EndAlone(w: World, t: Tid)
    requires Reachable(w) && t in w.s.pc && w.s.pc[t].Constructing?
    ensures var (w', e) := Alone(Step(w, StartRelease(t)), t, 1);
      e == Released && t in w'.s.pc && w'.s.pc[t] == if w.s.word == UNDERWAY_WITH_WAITER then WakeAll else Idle
    ensures var (w', e) := Alone(Step(w, StartAbort(t)), t, 1);
      e == Aborted && t in w'.s.pc && w'.s.pc[t] == if w.s.word == UNDERWAY_WITH_WAITER then WakeAll else Idle
  {
    var (w1, w2) := (Step(w, StartRelease(t)), Step(w, StartAbort(t)));
    assert w1.s.pc[t] == StoreDone && w2.s.pc[t] == StoreFresh;
  }

  /** The wakeup leaves nobody asleep, and the call returns. */
  lemma WakesEverybody(w: World, t: Tid)
    requires t in w.s.pc && w.s.pc[t].WakeAll?
    ensures Enabled(w.s, Run(t, false))
    ensures var s' := Step(w, Run(t, false)).s;
      t in s'.pc && s'.pc[t].Idle? && forall u | u in s'.pc :: !s'.pc[u].Asleep?
  {
  }
}
