/** Every answer of a semaphore answers the call that was made, and undisturbed calls are answered as due. */
module SemaphoreCalls {
  import opened Common
  import opened Threads
  import opened Calls
  import opened SemaphoreSpec
  import opened Semaphore
  import opened SemaphoreProof

  // ---------------------------------------------------------------- the calls of a run

  /** sem_wait and friends, sem_post, sem_getvalue. */
  datatype Request = Down(how: Call) | Up | Look

  type Visits = map<Tid, Visit<Request>>

  function Begins(a: Action): Option<Request> {
    match a
    case StartWait(_, call) => Some(Down(call))
    case StartPost(_) => Some(Up)
    case StartRead(_) => Some(Look)
    case _ => None
  }

  function Told(v: Visit<Request>, a: Action, e: Event, left: bool): Visit<Request> {
    Turn(v, Begins(a), a.Abandon?, !e.Quiet?, left)
  }

  lemma SameThreads(w: World, a: Action)
    requires Enabled(w.s, a)
    ensures Step(w, a).s.pc.Keys == w.s.pc.Keys
  {
  }

  ghost function NextCalls(w: World, a: Action, calls: Visits): (r: Visits)
    requires Enabled(w.s, a) && calls.Keys == w.s.pc.Keys
    ensures r.Keys == Step(w, a).s.pc.Keys
  {
    SameThreads(w, a);
    var (s', e) := Do(w.s, a);
    calls[a.tid := Told(calls[a.tid], a, e, s'.pc[a.tid].Idle?)]
  }

  /** Which call each thread is in after `n` steps. */
  ghost function CallsAt(ws: seq<World>, acts: seq<Action>, n: nat): (r: Visits)
    requires IsRun(ws, acts) && n <= |acts|
    ensures r.Keys == ws[n].s.pc.Keys
  {
    if n == 0 then map t | t in ws[0].s.pc :: Outside
    else NextCalls(ws[n - 1], acts[n - 1], CallsAt(ws, acts, n - 1))
  }

  predicate Fits(q: Request, e: Event) {
    match e
    case Quiet => true
    case Waited => q.Down?
    case WouldBlock => q == Down(TryWait)
    case GaveUp => q.Down? && !q.how.TryWait?
    case Posted => q.Up?
    case Overflow => q.Up?
    case Value(_) => q.Look?
  }

  // ---------------------------------------------------------------- invariant

  predicate Serves(pc: Pc, v: Visit<Request>) {
    match pc
    case Idle => v.Outside?
    case TryLoad(call) => v == Asked(Down(call), false) && !call.Wait?
    case TryCas(call, _) => v == Asked(Down(call), false) && !call.Wait?
    case DecLoad(call) => v == Asked(Down(call), false) && !call.TryWait?
    case DecCas(call, _) => v == Asked(Down(call), false) && !call.TryWait?
    case GoSleep(call) => v == Asked(Down(call), false) && !call.TryWait?
    case Asleep(call) => v == Asked(Down(call), false) && !call.TryWait?
    case WakeAll => v == Answered(Up)
    case ReadValue => v == Asked(Look, false)
    case _ => v == Asked(Up, false)
  }

  ghost predicate AllServe(s: State, calls: Visits) {
    && calls.Keys == s.pc.Keys
    && forall t {:trigger Serves(s.pc[t], calls[t])} | t in s.pc :: Serves(s.pc[t], calls[t])
  }

  /** What the step by `a` may tell a thread that is in call `v`; `left` if the thread is outside afterwards. */
  predicate Proper(v: Visit<Request>, a: Action, e: Event, left: bool) {
    // A call starts outside the functions and is not answered by being made.
    && (Begins(a).Some? ==> v.Outside? && e.Quiet? && !left)
    // An answer goes to a call that has none yet, and is one of that call's answers.
    && (!e.Quiet? ==> v.Asked? && Fits(v.call, e))
    // A call gives up if its wait is abandoned, and otherwise only if its timespec is found bad.
    && (e.GaveUp? ==> a.Abandon? || (a.Run? && a.badTime))
    && (a.Abandon? ==> e.GaveUp?)
    // A function returns only when it has answered.
    && (left ==> v.Answered? || !e.Quiet?)
  }

  ghost predicate CallsKept(w: World, a: Action, calls: Visits)
    requires Enabled(w.s, a) && calls.Keys == w.s.pc.Keys
  {
    SameThreads(w, a);
    var (s', e) := Do(w.s, a);
    && Proper(calls[a.tid], a, e, s'.pc[a.tid].Idle?)
    // Nobody but the thread that takes the step starts or finishes a call.
    && forall u | u in w.s.pc && u != a.tid :: s'.pc[u].Idle? <==> w.s.pc[u].Idle?
  }

  lemma MoverServes(s: State, a: Action, v: Visit<Request>)
    requires Enabled(s, a) && Serves(s.pc[a.tid], v)
    ensures var (s', e) := Do(s, a);
            && a.tid in s'.pc && Proper(v, a, e, s'.pc[a.tid].Idle?)
            && Serves(s'.pc[a.tid], Told(v, a, e, s'.pc[a.tid].Idle?))
  {
  }

  lemma OtherServes(w: World, a: Action, u: Tid, v: Visit<Request>)
    requires Enabled(w.s, a) && u in w.s.pc && u != a.tid && Serves(w.s.pc[u], v)
    ensures var s' := Step(w, a).s;
            u in s'.pc && Serves(s'.pc[u], v) && (s'.pc[u].Idle? <==> w.s.pc[u].Idle?)
  {
  }

  lemma StepServes(w: World, a: Action, calls: Visits)
    requires Enabled(w.s, a) && AllServe(w.s, calls)
    ensures CallsKept(w, a, calls) && AllServe(Step(w, a).s, NextCalls(w, a, calls))
  {
    SameThreads(w, a);
    var (s', calls') := (Step(w, a).s, NextCalls(w, a, calls));
    forall u | u in w.s.pc
      ensures Serves(s'.pc[u], calls'[u])
      ensures u != a.tid ==> (s'.pc[u].Idle? <==> w.s.pc[u].Idle?)
    {
      assert Serves(w.s.pc[u], calls[u]);
      if u == a.tid { MoverServes(w.s, a, calls[u]); } else { OtherServes(w, a, u, calls[u]); }
    }
    assert Serves(w.s.pc[a.tid], calls[a.tid]);
    MoverServes(w.s, a, calls[a.tid]);
  }

  lemma {:induction false} RunServesAt(ws: seq<World>, acts: seq<Action>, n: nat)
    requires IsRun(ws, acts) && n <= |acts|
    ensures AllServe(ws[n].s, CallsAt(ws, acts, n))
  {
    if n > 0 {
      RunServesAt(ws, acts, n - 1);
      StepServes(ws[n - 1], acts[n - 1], CallsAt(ws, acts, n - 1));
    }
  }

  /** In every run each call gets one answer, of its own kind, before its function returns. */
  lemma EveryCallIsAnswered(ws: seq<World>, acts: seq<Action>, n: nat)
    requires IsRun(ws, acts) && n < |acts|
    ensures CallsKept(ws[n], acts[n], CallsAt(ws, acts, n))
  {
    RunServesAt(ws, acts, n);
    StepServes(ws[n], acts[n], CallsAt(ws, acts, n));
  }

  // ---------------------------------------------------------------- undisturbed calls

  /** Thread `t` runs on, `steps` steps at most, until it is answered or cannot go on. */
  ghost function Alone(w: World, t: Tid, steps: nat): (World, Event)
    decreases steps
  {
    var a := Run(t, false, false);
    if steps == 0 || !Enabled(w.s, a) then (w, Quiet)
    else
      var e := Do(w.s, a).1;
      if e.Quiet? then Alone(Step(w, a), t, steps - 1) else (Step(w, a), e)
  }

  /** __sem_dec, from its first step. */
  lemma DecAlone(w: World, t: Tid, call: Call, steps: nat)
    requires t in w.s.pc && w.s.pc[t] == DecLoad(call) && w.s.value >= -1 && steps >= 3
    ensures var (w', e) := Alone(w, t, steps);
      if w.s.value > 0 then e == Waited else e == Quiet && t in w'.s.pc && w'.s.pc[t] == Asleep(call)
  {
    var a := Run(t, false, false);
    var w1 := Step(w, a);
    if w.s.value > 0 {
      assert w1.s.pc[t] == DecCas(call, w.s.value) && Enabled(w1.s, a);
    } else if w.s.value == 0 {
      assert w1.s.pc[t] == DecCas(call, 0) && Enabled(w1.s, a);
      var w2 := Step(w1, a);
      assert w2.s.pc[t] == GoSleep(call) && w2.s.value == -1;
      SleepAlone(w2, t, call, steps - 2);
    } else {
      SleepAlone(w1, t, call, steps - 1);
    }
  }

  lemma SleepAlone(w: World, t: Tid, call: Call, steps: nat)
    requires t in w.s.pc && w.s.pc[t] == GoSleep(call) && w.s.value == -1 && steps >= 1
    ensures var (w', e) := Alone(w, t, steps); e == Quiet && t in w'.s.pc && w'.s.pc[t] == Asleep(call)
  {
    var w1 := Step(w, Run(t, false, false));
    assert Alone(w1, t, steps - 1) == (w1, Quiet);
  }

  /** Undisturbed, a wait takes a unit if there is one; if not, sem_trywait fails and the others sleep. */
  lemma WaitAlone(w: World, t: Tid, call: Call)
    requires Reachable(w) && t in w.s.pc && w.s.pc[t].Idle?
    ensures var (w', e) := Alone(Step(w, StartWait(t, call)), t, 4);
      if w.units > 0 then e == Waited
      else if call.TryWait? then e == WouldBlock
      else e == Quiet && t in w'.s.pc && w'.s.pc[t] == Asleep(call)
  {
    ReachableInv(w);
    var (a, w1) := (Run(t, false, false), Step(w, StartWait(t, call)));
    if call.Wait? {
      DecAlone(w1, t, call, 4);
    } else {
      assert w1.s.pc[t] == TryLoad(call) && Enabled(w1.s, a);
      var w2 := Step(w1, a);
      if w.units > 0 {
        assert w2.s.pc[t] == TryCas(call, w.s.value) && Enabled(w2.s, a);
        assert Alone(w2, t, 3).1 == Waited;
      } else if call.TimedWait? {
        assert w2.s.pc[t] == DecLoad(call) && w2.s.value == w.s.value;
        DecAlone(w2, t, call, 3);
      }
    }
  }

  /** A waiter that nobody disturbs any more takes a unit if there is one, and sleeps again if not. */
  lemma WokenAlone(w: World, t: Tid, call: Call)
    requires Reachable(w) && t in w.s.pc && w.s.pc[t] == DecLoad(call)
    ensures var (w', e) := Alone(w, t, 3);
      if w.units > 0 then e == Waited else e == Quiet && t in w'.s.pc && w'.s.pc[t] == Asleep(call)
  {
    ReachableInv(w);
    DecAlone(w, t, call, 3);
  }

  /** Undisturbed, a post adds a unit unless the semaphore is full, and then wakes exactly if the value was -1. */
  lemma PostAlone(w: World, t: Tid)
    requires Reachable(w) && t in w.s.pc && w.s.pc[t].Idle?
    ensures var (w', e) := Alone(Step(w, StartPost(t)), t, 2);
      && e == (if w.units < SEM_VALUE_MAX then Posted else Overflow)
      && t in w'.s.pc && w'.s.pc[t] == if w.s.value < 0 then WakeAll else Idle
  {
    ReachableInv(w);
    var (a, w1) := (Run(t, false, false), Step(w, StartPost(t)));
    assert w1.s.pc[t] == PostLoad && Enabled(w1.s, a);
    if w.units < SEM_VALUE_MAX {
      var w2 := Step(w1, a);
      assert w2.s.pc[t] == PostCas(w.s.value) && Enabled(w2.s, a);
      assert Alone(w2, t, 1).1 == Posted;
    }
  }

  /** sem_getvalue tells the units there are. */
  lemma LookAlone(w: World, t: Tid)
    requires Reachable(w) && t in w.s.pc && w.s.pc[t].Idle?
    ensures Alone(Step(w, StartRead(t)), t, 1).1 == Value(w.units)
  {
    ReachableInv(w);
    var w1 := Step(w, StartRead(t));
    assert w1.s.pc[t] == ReadValue && Enabled(w1.s, Run(t, false, false));
  }

  /** The wakeup leaves nobody asleep, and the call returns. */
  lemma WakesEverybody(w: World, t: Tid)
    requires t in w.s.pc && w.s.pc[t].WakeAll?
    ensures Enabled(w.s, Run(t, false, false))
    ensures var s' := Step(w, Run(t, false, false)).s;
      t in s'.pc && s'.pc[t].Idle? && forall u | u in s'.pc :: !s'.pc[u].Asleep?
  {
  }
}
