/** Every answer of a mutex answers the call that was made, and undisturbed calls are answered as due. */
module MutexCalls {
  import opened Common
  import opened Threads
  import opened Calls
  import opened MutexSpec
  import opened Mutex
  import opened MutexProof

  // ---------------------------------------------------------------- the calls of a run

  datatype Request = Lock(how: Call) | Unlock

  type Visits = map<Tid, Visit<Request>>

  function Begins(a: Action): Option<Request> {
    match a
    case StartLock(_, call) => Some(Lock(call))
    case StartUnlock(_) => Some(Unlock)
    case _ => None
  }

  /** What the step by `a` that answers `e`, and leaves its thread outside or not, makes of the thread's call. */
  function Told(v: Visit<Request>, a: Action, e: Event, left: bool): Visit<Request> {
    Turn(v, Begins(a), a.Timeout?, !e.Quiet?, left)
  }

  lemma SameThreads(cfg: Config, w: World, a: Action)
    requires Enabled(cfg, w.s, w.h, a)
    ensures Step(cfg, w, a).s.pc.Keys == w.s.pc.Keys
  {
    if a.Run? { MovesItself(cfg, w, a); }
  }

  /** A thread that runs moves nobody else. */
  lemma MovesItself(cfg: Config, w: World, a: Action)
    requires Enabled(cfg, w.s, w.h, a) && a.Run?
    ensures var s' := Step(cfg, w, a).s; a.tid in s'.pc && s'.pc == w.s.pc[a.tid := s'.pc[a.tid]]
  {
  }

  ghost function NextCalls(cfg: Config, w: World, a: Action, calls: Visits): (r: Visits)
    requires Enabled(cfg, w.s, w.h, a) && calls.Keys == w.s.pc.Keys
    ensures r.Keys == Step(cfg, w, a).s.pc.Keys
  {
    SameThreads(cfg, w, a);
    var (s', e) := Do(cfg, w.s, w.h, a);
    calls[a.tid := Told(calls[a.tid], a, e, s'.pc[a.tid].Idle?)]
  }

  /** Which call each thread is in after `n` steps. */
  ghost function CallsAt(cfg: Config, ws: seq<World>, acts: seq<Action>, n: nat): (r: Visits)
    requires IsRun(cfg, ws, acts) && n <= |acts|
    ensures r.Keys == ws[n].s.pc.Keys
  {
    if n == 0 then map t | t in ws[0].s.pc :: Outside
    else NextCalls(cfg, ws[n - 1], acts[n - 1], CallsAt(cfg, ws, acts, n - 1))
  }

  /** The answers that pthread_mutex_lock, _trylock, _timedlock and _unlock can give. */
  predicate Fits(q: Request, e: Event) {
    match e
    case Quiet => true
    case Acquired => q.Lock?
    case Reacquired => q.Lock?
    case TooDeep => q.Lock?
    case Busy => q == Lock(Try)
    case WouldDeadlock => q.Lock? && !q.how.Try?
    case GaveUp => q == Lock(Timed)
    case Unwound => q.Unlock?
    case Released => q.Unlock?
    case NotOwner => q.Unlock?
  }

  // ---------------------------------------------------------------- invariant

  predicate Serves(pc: Pc, v: Visit<Request>) {
    match pc
    case Idle => v.Outside?
    case NTry(call) => v == Asked(Lock(call), false)
    case RLoad(call) => v == Asked(Lock(call), false)
    case ROwner(call, _) => v == Asked(Lock(call), false)
    case RIncrement => v.Asked? && v.call.Lock?
    case RTry => v == Asked(Lock(Try), false)
    case RStore => v.Answered? && v.call.Lock?
    case WakeOne => v == Answered(Unlock)
    case _ => if Contends(pc) then v == Asked(Lock(pc.call), false) && !pc.call.Try? else v == Asked(Unlock, false)
  }

  /** In a lock call that has found the mutex taken, or is about to take it. */
  predicate Contends(pc: Pc) {
    || pc.NTryAgain? || pc.NExchange? || pc.NWait? || pc.Asleep?
    || pc.RFast? || pc.RGrab? || pc.RFlip? || pc.RWaitTid? || pc.RWait? || pc.RReload?
  }

  ghost predicate AllServe(s: State, calls: Visits) {
    && calls.Keys == s.pc.Keys
    && forall t {:trigger Serves(s.pc[t], calls[t])} | t in s.pc :: Serves(s.pc[t], calls[t])
  }

  /** What the step by `a` may tell a thread that is in call `v`; `left` if the thread is outside afterwards. */
  predicate Proper(v: Visit<Request>, a: Action, e: Event, left: bool) {
    // A call starts outside the functions and is not answered by being made.
    && (Begins(a).Some? ==> v.Outside? && e.Quiet? && !left)
    // An answer goes to a call that has none yet, and is one of that call's answers.
    && (!e.Quiet? ==> v.Asked? && Fits(v.call, e))
    // A call gives up if its wait times out, and otherwise only if its timespec is found bad.
    && (e.GaveUp? ==> a.Timeout? || (a.Run? && a.badTime))
    && (a.Timeout? ==> e.GaveUp?)
    // A function returns only when it has answered.
    && (left ==> v.Answered? || !e.Quiet?)
  }

  ghost predicate CallsKept(cfg: Config, w: World, a: Action, calls: Visits)
    requires Enabled(cfg, w.s, w.h, a) && calls.Keys == w.s.pc.Keys
  {
    SameThreads(cfg, w, a);
    var (s', e) := Do(cfg, w.s, w.h, a);
    && Proper(calls[a.tid], a, e, s'.pc[a.tid].Idle?)
    // Nobody but the thread that takes the step starts or finishes a call.
    && forall u | u in w.s.pc && u != a.tid :: s'.pc[u].Idle? <==> w.s.pc[u].Idle?
  }

  /** The thread that takes the step is told what it may be, and goes where its call wants it. */
  ghost predicate MoverOk(cfg: Config, s: State, h: Hold, a: Action, v: Visit<Request>)
    requires Enabled(cfg, s, h, a)
  {
    var (s', e) := Do(cfg, s, h, a);
    && a.tid in s'.pc && Proper(v, a, e, s'.pc[a.tid].Idle?)
    && Serves(s'.pc[a.tid], Told(v, a, e, s'.pc[a.tid].Idle?))
  }

  lemma NormalServes(cfg: Config, s: State, h: Hold, a: Action, v: Visit<Request>)
    requires Enabled(cfg, s, h, a) && Serves(s.pc[a.tid], v) && a.Run? && InNormal(s.pc[a.tid])
    ensures MoverOk(cfg, s, h, a, v)
  {
  }

  lemma UnlockGoes(s: State, t: Tid)
    requires t in s.pc && InUnlock(s.pc[t])
    ensures var (s', e) := NextUnlock(s, t);
      && t in s'.pc
      && (s.pc[t].WakeOne? ==> e.Quiet? && s'.pc[t].Idle?)
      && (!s.pc[t].WakeOne? ==>
            if e.Quiet? then s'.pc[t].UOwner? || s'.pc[t].UDecrement? || s'.pc[t].UClear? || s'.pc[t].UExchange?
            else Fits(Unlock, e) && (s'.pc[t].Idle? || s'.pc[t].WakeOne?))
  {
  }

  lemma UnlockServes(cfg: Config, s: State, h: Hold, a: Action, v: Visit<Request>)
    requires Enabled(cfg, s, h, a) && Serves(s.pc[a.tid], v) && a.Run? && InUnlock(s.pc[a.tid])
    ensures MoverOk(cfg, s, h, a, v)
  {
    UnlockGoes(s, a.tid);
  }

  /** The loop of MutexLockWithTimeout goes on with the same call, or gives up. */
  lemma LoopServes(cfg: Config, call: Call, w: Word, badTime: bool)
    ensures var (pc, e) := Loop(cfg, call, w, badTime);
            if e.Quiet? then Contends(pc) && pc.call == call else pc.Idle? && e.GaveUp? && badTime
    ensures var (pc, e) := GoWait(cfg, call, w, badTime);
            if e.Quiet? then Contends(pc) && pc.call == call else pc.Idle? && e.GaveUp? && badTime
  {
  }

  /** Where a step of an unfinished lock call leads. */
  predicate Goes(call: Call, badTime: bool, pc: Pc, e: Event) {
    match e
    case Quiet =>
      || (Contends(pc) && pc.call == call && !call.Try?) || pc.RIncrement?
      || (pc.RTry? && call.Try?) || (pc.ROwner? && pc.call == call)
    case Acquired => pc.RStore?
    case TooDeep => pc.Idle?
    case Busy => pc.Idle? && call.Try?
    case WouldDeadlock => pc.Idle? && !call.Try?
    case GaveUp => pc.Idle? && badTime
    case _ => false
  }

  lemma ContendingGoes(cfg: Config, s: State, t: Tid, spurious: bool, badTime: bool)
    requires t in s.pc && Contends(s.pc[t]) && !s.pc[t].call.Try? && !InNormal(s.pc[t]) && !s.pc[t].Asleep?
    ensures var (s', e) := NextOwned(cfg, s, t, spurious, badTime);
            t in s'.pc && Goes(s.pc[t].call, badTime, s'.pc[t], e)
  {
    var pc := s.pc[t];
    LoopServes(cfg, pc.call, s.word, badTime);
    if pc.RFlip? { LoopServes(cfg, pc.call, pc.seen.(lock := 2), badTime); }
  }

  lemma EnteringGoes(cfg: Config, s: State, t: Tid, spurious: bool, badTime: bool)
    requires t in s.pc && (s.pc[t].RLoad? || s.pc[t].ROwner?)
    ensures var (s', e) := NextOwned(cfg, s, t, spurious, badTime);
            t in s'.pc && Goes(s.pc[t].call, badTime, s'.pc[t], e)
  {
    var pc := s.pc[t];
    if pc.ROwner? { LoopServes(cfg, pc.call, pc.seen, badTime); }
  }

  lemma GoingServes(v: Visit<Request>, a: Action, call: Call, pc: Pc, e: Event)
    requires v == Asked(Lock(call), false) && a.Run? && Goes(call, a.badTime, pc, e) && (a.badTime ==> call.Timed?)
    ensures Proper(v, a, e, pc.Idle?) && Serves(pc, Told(v, a, e, pc.Idle?))
  {
  }

  lemma LockingServes(cfg: Config, s: State, h: Hold, a: Action, v: Visit<Request>)
    requires Enabled(cfg, s, h, a) && Serves(s.pc[a.tid], v) && a.Run? && !InNormal(s.pc[a.tid])
    requires Contends(s.pc[a.tid]) || s.pc[a.tid].RLoad? || s.pc[a.tid].ROwner?
    ensures MoverOk(cfg, s, h, a, v)
  {
    var (t, call, s', e) := (a.tid, s.pc[a.tid].call, Do(cfg, s, h, a).0, Do(cfg, s, h, a).1);
    if Contends(s.pc[t]) {
      ContendingGoes(cfg, s, t, a.spurious, a.badTime);
    } else {
      EnteringGoes(cfg, s, t, a.spurious, a.badTime);
    }
    GoingServes(v, a, call, s'.pc[t], e);
  }

  lemma TakingServes(cfg: Config, s: State, h: Hold, a: Action, v: Visit<Request>)
    requires Enabled(cfg, s, h, a) && Serves(s.pc[a.tid], v) && a.Run?
    requires s.pc[a.tid].RIncrement? || s.pc[a.tid].RTry? || s.pc[a.tid].RStore?
    ensures MoverOk(cfg, s, h, a, v)
  {
  }

  lemma MoverServes(cfg: Config, s: State, h: Hold, a: Action, v: Visit<Request>)
    requires Enabled(cfg, s, h, a) && Serves(s.pc[a.tid], v)
    ensures MoverOk(cfg, s, h, a, v)
  {
    if a.Run? {
      if InNormal(s.pc[a.tid]) { NormalServes(cfg, s, h, a, v); }
      else if InUnlock(s.pc[a.tid]) { UnlockServes(cfg, s, h, a, v); }
      else if s.pc[a.tid].RIncrement? || s.pc[a.tid].RTry? || s.pc[a.tid].RStore? { TakingServes(cfg, s, h, a, v); }
      else { LockingServes(cfg, s, h, a, v); }
    }
  }

  lemma OtherServes(cfg: Config, w: World, a: Action, u: Tid, v: Visit<Request>)
    requires Enabled(cfg, w.s, w.h, a) && u in w.s.pc && u != a.tid && Serves(w.s.pc[u], v)
    ensures var s' := Step(cfg, w, a).s;
            u in s'.pc && Serves(s'.pc[u], v) && (s'.pc[u].Idle? <==> w.s.pc[u].Idle?)
  {
    if a.Run? { MovesItself(cfg, w, a); }
  }

  lemma StepServes(cfg: Config, w: World, a: Action, calls: Visits)
    requires Enabled(cfg, w.s, w.h, a) && AllServe(w.s, calls)
    ensures CallsKept(cfg, w, a, calls) && AllServe(Step(cfg, w, a).s, NextCalls(cfg, w, a, calls))
  {
    SameThreads(cfg, w, a);
    var (s', calls') := (Step(cfg, w, a).s, NextCalls(cfg, w, a, calls));
    forall u | u in w.s.pc
      ensures Serves(s'.pc[u], calls'[u])
      ensures u != a.tid ==> (s'.pc[u].Idle? <==> w.s.pc[u].Idle?)
    {
      assert Serves(w.s.pc[u], calls[u]);
      if u == a.tid { MoverServes(cfg, w.s, w.h, a, calls[u]); } else { OtherServes(cfg, w, a, u, calls[u]); }
    }
    assert Serves(w.s.pc[a.tid], calls[a.tid]);
    MoverServes(cfg, w.s, w.h, a, calls[a.tid]);
  }

  lemma {:induction false} RunServesAt(cfg: Config, ws: seq<World>, acts: seq<Action>, n: nat)
    requires IsRun(cfg, ws, acts) && n <= |acts|
    ensures AllServe(ws[n].s, CallsAt(cfg, ws, acts, n))
  {
    if n > 0 {
      RunServesAt(cfg, ws, acts, n - 1);
      StepServes(cfg, ws[n - 1], acts[n - 1], CallsAt(cfg, ws, acts, n - 1));
    }
  }

  /** In every run each call gets one answer, of its own kind, before its function returns. */
  lemma EveryCallIsAnswered(cfg: Config, ws: seq<World>, acts: seq<Action>, n: nat)
    requires IsRun(cfg, ws, acts) && n < |acts|
    ensures CallsKept(cfg, ws[n], acts[n], CallsAt(cfg, ws, acts, n))
  {
    RunServesAt(cfg, ws, acts, n);
    StepServes(cfg, ws[n], acts[n], CallsAt(cfg, ws, acts, n));
  }

  // ---------------------------------------------------------------- the owner's own calls

  /** An owner that locks again finds out, before it tries to take the mutex or waits for it. */
  ghost predicate OwnersTold(cfg: Config, w: World) {
    !cfg.kind.Normal? ==>
      forall t {:trigger Holds(w, t)} | t in w.s.pc && Holds(w, t) :: !Contends(w.s.pc[t]) && !w.s.pc[t].RTry?
  }

  lemma OtherStays(cfg: Config, w: World, a: Action, u: Tid)
    requires Enabled(cfg, w.s, w.h, a) && u in w.s.pc && u != a.tid
    requires !Contends(w.s.pc[u])
    ensures u in Step(cfg, w, a).s.pc && Step(cfg, w, a).s.pc[u] == w.s.pc[u]
  {
    if a.Run? { MovesItself(cfg, w, a); }
  }

  lemma TakerStores(cfg: Config, s: State, t: Tid, spurious: bool, badTime: bool)
    requires t in s.pc
    ensures var (s', e) := NextOwned(cfg, s, t, spurious, badTime); e.Acquired? ==> t in s'.pc && s'.pc[t].RStore?
    ensures !NextUnlock(s, t).1.Acquired?
  {
  }

  /** An owner that starts to lock finds its own id in owner_tid. */
  lemma OwnerFinds(cfg: Config, w: World, a: Action)
    requires Safe(cfg, w) && Enabled(cfg, w.s, w.h, a) && a.Run? && !cfg.kind.Normal? && Holds(w, a.tid)
    requires !Contends(w.s.pc[a.tid]) && !w.s.pc[a.tid].RTry?
    ensures var pc := Step(cfg, w, a).s.pc[a.tid]; !Contends(pc) && !pc.RTry?
  {
    assert PcOk(cfg, w, a.tid, w.s.pc[a.tid]);
  }

  lemma OwnerMoves(cfg: Config, w: World, a: Action)
    requires Safe(cfg, w) && OwnersTold(cfg, w) && Enabled(cfg, w.s, w.h, a) && !cfg.kind.Normal?
    requires Holds(Step(cfg, w, a), a.tid)
    ensures var s' := Step(cfg, w, a).s; a.tid in s'.pc && !Contends(s'.pc[a.tid]) && !s'.pc[a.tid].RTry?
  {
    if a.Run? {
      assert PcOk(cfg, w, a.tid, w.s.pc[a.tid]);
      if Holds(w, a.tid) {
        OwnerFinds(cfg, w, a);
      } else {
        assert Do(cfg, w.s, w.h, a).1.Acquired?;
        TakerStores(cfg, w.s, a.tid, a.spurious, a.badTime);
      }
    } else {
      assert Holds(w, a.tid);
    }
  }

  lemma OwnersToldStep(cfg: Config, w: World, a: Action)
    requires Safe(cfg, w) && OwnersTold(cfg, w) && Enabled(cfg, w.s, w.h, a)
    ensures OwnersTold(cfg, Step(cfg, w, a))
  {
    var w' := Step(cfg, w, a);
    SafeStep(cfg, w, a);
    SameThreads(cfg, w, a);
    if !cfg.kind.Normal? {
      forall t | t in w'.s.pc && Holds(w', t) ensures !Contends(w'.s.pc[t]) && !w'.s.pc[t].RTry? {
        assert PcOk(cfg, w, t, w.s.pc[t]);
        if t != a.tid {
          assert Holds(w, t);
          OtherStays(cfg, w, a, t);
        } else {
          OwnerMoves(cfg, w, a);
        }
      }
    }
  }

  lemma {:induction false} OwnersToldAt(cfg: Config, ws: seq<World>, acts: seq<Action>, n: nat)
    requires IsRun(cfg, ws, acts) && n <= |acts|
    ensures OwnersTold(cfg, ws[n])
  {
    if n > 0 {
      OwnersToldAt(cfg, ws, acts, n - 1);
      RunKeepsInv(cfg, ws, acts, n - 1);
      OwnersToldStep(cfg, ws[n - 1], acts[n - 1]);
    }
  }

  /**
   * The owner of a recursive mutex locks it again or is told that the counter is full; the owner
   * of an errorcheck mutex is told EDEADLK, or EBUSY by trylock. Neither ever waits for itself.
   */
  lemma OwnerIsTold(cfg: Config, ws: seq<World>, acts: seq<Action>, n: nat)
    requires IsRun(cfg, ws, acts) && n < |acts| && !cfg.kind.Normal? && Holds(ws[n], acts[n].tid)
    requires var v := CallsAt(cfg, ws, acts, n)[acts[n].tid]; v.Asked? && v.call.Lock?
    ensures var (e, q) := (Do(cfg, ws[n].s, ws[n].h, acts[n]).1, CallsAt(cfg, ws, acts, n)[acts[n].tid].call);
      && (cfg.kind.Recursive? ==> e.Quiet? || e.Reacquired? || e.TooDeep?)
      && (cfg.kind.ErrorCheck? ==> e.Quiet? || e == if q.how.Try? then Busy else WouldDeadlock)
    ensures !ws[n].s.pc[acts[n].tid].Asleep?
  {
    var (w, a, calls) := (ws[n], acts[n], CallsAt(cfg, ws, acts, n));
    OwnersToldAt(cfg, ws, acts, n);
    RunKeepsInv(cfg, ws, acts, n);
    RunServesAt(cfg, ws, acts, n);
    assert PcOk(cfg, w, a.tid, w.s.pc[a.tid]);
    assert Serves(w.s.pc[a.tid], calls[a.tid]);
    assert w.s.pc[a.tid].RLoad? || w.s.pc[a.tid].ROwner? || w.s.pc[a.tid].RIncrement?;
  }

  // ---------------------------------------------------------------- undisturbed calls

  /** Thread `t` runs on, `steps` steps at most, until it is answered or cannot go on. */
  ghost function Alone(cfg: Config, w: World, t: Tid, steps: nat): (World, Event)
    decreases steps
  {
    var a := Run(t, false, false);
    if steps == 0 || !Enabled(cfg, w.s, w.h, a) then (w, Quiet)
    else
      var e := Do(cfg, w.s, w.h, a).1;
      if e.Quiet? then Alone(cfg, Step(cfg, w, a), t, steps - 1) else (Step(cfg, w, a), e)
  }

  /** The answer that a lock call is due; Quiet if the caller has to wait. */
  ghost function Due(kind: Kind, h: Hold, t: Tid, call: Call): Event {
    if h.Free? then Acquired
    else if kind.Recursive? && h.owner == t then if h.depth == MAX_DEPTH then TooDeep else Reacquired
    else if call.Try? then Busy
    else if kind.ErrorCheck? && h.owner == t then WouldDeadlock
    else Quiet
  }

  lemma NormalWoken(cfg: Config, w: World, t: Tid, call: Call, steps: nat)
    requires t in w.s.pc && w.s.pc[t] == NExchange(call) && steps >= 2
    ensures var (w', e) := Alone(cfg, w, t, steps);
      if w.s.word == UNLOCKED then e == Acquired else e == Quiet && t in w'.s.pc && w'.s.pc[t] == Asleep(call)
  {
    var a := Run(t, false, false);
    if w.s.word != UNLOCKED {
      var w1 := Step(cfg, w, a);
      assert w1.s.pc[t] == NWait(call) && w1.s.word == LOCKED_CONTENDED && Enabled(cfg, w1.s, w1.h, a);
      var w2 := Step(cfg, w1, a);
      assert w2.s.pc[t] == Asleep(call);
      assert Alone(cfg, w1, t, steps - 1) == Alone(cfg, w2, t, steps - 2) == (w2, Quiet);
    }
  }

  lemma NormalAlone(cfg: Config, w: World, t: Tid, call: Call, steps: nat)
    requires t in w.s.pc && w.s.pc[t] == NTry(call) && steps >= 4
    ensures var (w', e) := Alone(cfg, w, t, steps);
      if w.s.word == UNLOCKED then e == Acquired
      else if call.Try? then e == Busy
      else e == Quiet && t in w'.s.pc && w'.s.pc[t] == Asleep(call)
  {
    var a := Run(t, false, false);
    if w.s.word != UNLOCKED && !call.Try? {
      var w1 := Step(cfg, w, a);
      assert w1.s.pc[t] == NTryAgain(call) && w1.s.word == w.s.word && Enabled(cfg, w1.s, w1.h, a);
      var w2 := Step(cfg, w1, a);
      assert w2.s.pc[t] == NExchange(call) && w2.s.word == w.s.word;
      NormalWoken(cfg, w2, t, call, steps - 2);
      assert Alone(cfg, w, t, steps) == Alone(cfg, w1, t, steps - 1) == Alone(cfg, w2, t, steps - 2);
    }
  }

  /** From the choice of what to wait for to sleep. */
  lemma WaitAlone(cfg: Config, w: World, t: Tid, call: Call, steps: nat)
    requires t in w.s.pc && GoWait(cfg, call, w.s.word, false).0 == w.s.pc[t] && steps >= 2
    ensures var (w', e) := Alone(cfg, w, t, steps); e == Quiet && t in w'.s.pc && w'.s.pc[t] == Asleep(call)
  {
    var a := Run(t, false, false);
    var w1 := Step(cfg, w, a);
    if !cfg.lp64 {
      assert w1.s.pc[t] == RWait(call, w.s.word, w.s.ownerTid) && Enabled(cfg, w1.s, w1.h, a);
      var w2 := Step(cfg, w1, a);
      assert w2.s.pc[t] == Asleep(call);
      assert Alone(cfg, w1, t, steps - 1) == Alone(cfg, w2, t, steps - 2) == (w2, Quiet);
    }
  }

  /** From the head of the loop of MutexLockWithTimeout, on a locked state, to sleep. */
  lemma LoopAlone(cfg: Config, w: World, t: Tid, call: Call, steps: nat)
    requires t in w.s.pc && Loop(cfg, call, w.s.word, false).0 == w.s.pc[t] && 1 <= w.s.word.lock <= 2 && steps >= 3
    ensures var (w', e) := Alone(cfg, w, t, steps); e == Quiet && t in w'.s.pc && w'.s.pc[t] == Asleep(call)
  {
    var a := Run(t, false, false);
    if w.s.word.lock == 1 {
      var w1 := Step(cfg, w, a);
      WaitAlone(cfg, w1, t, call, steps - 1);
    } else {
      WaitAlone(cfg, w, t, call, steps);
    }
  }

  /** A caller that has read owner_tid. */
  lemma OwnerAlone(cfg: Config, w: World, t: Tid, call: Call, steps: nat)
    requires t in w.s.pc && w.s.pc[t] == ROwner(call, w.s.word) && Plausible(w.s.word) && steps >= 4
    ensures var (w', e) := Alone(cfg, w, t, steps);
      if w.s.ownerTid == t then
        if cfg.kind.ErrorCheck? then e == if call.Try? then Busy else WouldDeadlock
        else e == if w.s.word.counter == MAX_COUNTER then TooDeep else Reacquired
      else if w.s.word == UNLOCKED then e == Acquired
      else if call.Try? then e == Busy
      else e == Quiet && t in w'.s.pc && w'.s.pc[t] == Asleep(call)
  {
    var a := Run(t, false, false);
    var w1 := Step(cfg, w, a);
    if w.s.ownerTid == t {
      if !cfg.kind.ErrorCheck? && w.s.word.counter != MAX_COUNTER {
        assert w1.s.pc[t] == RIncrement && Enabled(cfg, w1.s, w1.h, a);
      }
    } else if call.Try? || w.s.word == UNLOCKED {
      assert w1.s.pc[t] == if call.Try? then RTry else RFast(call);
      assert w1.s.word == w.s.word && Enabled(cfg, w1.s, w1.h, a);
    } else {
      assert w1.s.pc[t] == Loop(cfg, call, w.s.word, false).0 && w1.s.word == w.s.word;
      LoopAlone(cfg, w1, t, call, steps - 1);
    }
  }

  /** A lock call that nobody disturbs gets the answer it is due, or sleeps if it is due none. */
  lemma LockAlone(cfg: Config, w: World, t: Tid, call: Call)
    requires Reachable(cfg, w) && t in w.s.pc && w.s.pc[t].Idle?
    ensures var (w', e) := Alone(cfg, Step(cfg, w, StartLock(t, call)), t, 5);
            && e == Due(cfg.kind, w.h, t, call)
            && (e.Quiet? ==> t in w'.s.pc && w'.s.pc[t] == Asleep(call))
  {
    ReachableInv(cfg, w);
    var (a, w1) := (Run(t, false, false), Step(cfg, w, StartLock(t, call)));
    if cfg.kind.Normal? {
      NormalAlone(cfg, w1, t, call, 5);
    } else {
      assert w1.s.pc[t] == RLoad(call) && Enabled(cfg, w1.s, w1.h, a);
      var w2 := Step(cfg, w1, a);
      assert w2.s.word == w.s.word && w2.s.ownerTid == w.s.ownerTid && w2.s.pc[t] == ROwner(call, w.s.word);
      OwnerAlone(cfg, w2, t, call, 4);
    }
  }

  lemma OwnedWoken(cfg: Config, w: World, t: Tid, call: Call, steps: nat)
    requires t in w.s.pc && w.s.pc[t] == RReload(call) && Plausible(w.s.word) && steps >= 4
    ensures var (w', e) := Alone(cfg, w, t, steps);
      if w.s.word == UNLOCKED then e == Acquired else e == Quiet && t in w'.s.pc && w'.s.pc[t] == Asleep(call)
  {
    var a := Run(t, false, false);
    var w1 := Step(cfg, w, a);
    assert w1.s.pc[t] == Loop(cfg, call, w.s.word, false).0 && w1.s.word == w.s.word;
    if w.s.word == UNLOCKED {
      assert w1.s.pc[t] == RGrab(call) && Enabled(cfg, w1.s, w1.h, a);
      assert Alone(cfg, w1, t, steps - 1).1 == Acquired;
    } else {
      LoopAlone(cfg, w1, t, call, steps - 1);
    }
  }

  /** A waiter that nobody disturbs any more takes the mutex if it is free, and sleeps again if not. */
  lemma WokenAlone(cfg: Config, w: World, t: Tid, call: Call)
    requires Reachable(cfg, w) && t in w.s.pc && w.s.pc[t] == AfterWait(cfg, call)
    ensures var (w', e) := Alone(cfg, w, t, 4);
            if w.h.Free? then e == Acquired else e == Quiet && t in w'.s.pc && w'.s.pc[t] == Asleep(call)
  {
    ReachableInv(cfg, w);
    if cfg.kind.Normal? { NormalWoken(cfg, w, t, call, 4); } else { OwnedWoken(cfg, w, t, call, 4); }
  }

  /** The last steps of an unlock that releases. */
  lemma ReleaseAlone(cfg: Config, w: World, t: Tid, steps: nat)
    requires t in w.s.pc && w.s.pc[t] == UClear && steps >= 2
    ensures var (w', e) := Alone(cfg, w, t, steps);
      e == Released && t in w'.s.pc && w'.s.pc[t] == if w.s.word.lock == 2 then WakeOne else Idle
  {
    var a := Run(t, false, false);
    var w1 := Step(cfg, w, a);
    assert w1.s.pc[t] == UExchange && w1.s.word == w.s.word && Enabled(cfg, w1.s, w1.h, a);
    assert Alone(cfg, w1, t, steps - 1) == (Step(cfg, w1, a), Released);
  }

  /** pthread_mutex_unlock of a recursive or errorcheck mutex, from the comparison with owner_tid. */
  lemma ClearAlone(cfg: Config, w: World, t: Tid, steps: nat)
    requires t in w.s.pc && w.s.pc[t] == UOwner(w.s.word) && steps >= 3
    ensures var (w', e) := Alone(cfg, w, t, steps);
      && e == (if w.s.ownerTid != t then NotOwner else if w.s.word.counter != 0 then Unwound else Released)
      && t in w'.s.pc && w'.s.pc[t] == if e.Released? && w.s.word.lock == 2 then WakeOne else Idle
  {
    var a := Run(t, false, false);
    if w.s.ownerTid == t {
      var w1 := Step(cfg, w, a);
      if w.s.word.counter != 0 {
        assert w1.s.pc[t] == UDecrement && Enabled(cfg, w1.s, w1.h, a);
        assert Alone(cfg, w1, t, steps - 1) == (Step(cfg, w1, a), Unwound);
      } else {
        assert w1.s.pc[t] == UClear && w1.s.word == w.s.word;
        ReleaseAlone(cfg, w1, t, steps - 1);
      }
    }
  }

  /** pthread_mutex_unlock, from its first step. */
  lemma OpenAlone(cfg: Config, w: World, t: Tid, steps: nat)
    requires t in w.s.pc && (w.s.pc[t] == NUnlock || w.s.pc[t] == ULoad) && steps >= 4
    requires w.s.pc[t] == NUnlock && w.s.word.lock == 2 ==> w.s.word == LOCKED_CONTENDED
    ensures var (w', e) := Alone(cfg, w, t, steps);
      && e == (if w.s.pc[t] == NUnlock then Released
               else if w.s.ownerTid != t then NotOwner else if w.s.word.counter != 0 then Unwound else Released)
      && t in w'.s.pc && w'.s.pc[t] == if e.Released? && w.s.word.lock == 2 then WakeOne else Idle
  {
    var a := Run(t, false, false);
    if w.s.pc[t] == ULoad {
      ClearAlone(cfg, Step(cfg, w, a), t, steps - 1);
    }
  }

  /**
   * An unlock call that nobody disturbs undoes one lock of its caller, and is refused to everybody
   * else; it goes on to wake somebody exactly if it releases a contended mutex.
   */
  lemma UnlockAlone(cfg: Config, w: World, t: Tid)
    requires Reachable(cfg, w) && Enabled(cfg, w.s, w.h, StartUnlock(t))
    ensures var (w', e) := Alone(cfg, Step(cfg, w, StartUnlock(t)), t, 4);
      && e == (if !Holds(w, t) then NotOwner else if w.h.depth > 1 then Unwound else Released)
      && t in w'.s.pc && w'.s.pc[t] == if e.Released? && w.s.word.lock == 2 then WakeOne else Idle
  {
    ReachableInv(cfg, w);
    OpenAlone(cfg, Step(cfg, w, StartUnlock(t)), t, 4);
  }

  ghost function Sleepers(s: State): set<Tid> {
    Where(s.pc, (pc: Pc) => pc.Asleep?)
  }

  /** The wakeup leaves one sleeper fewer if there is one, and the unlock returns. */
  lemma WakesOne(cfg: Config, w: World, t: Tid, a: Action)
    requires t in w.s.pc && w.s.pc[t].WakeOne? && Enabled(cfg, w.s, w.h, a) && a.tid == t
    ensures var s' := Step(cfg, w, a).s;
      && t in s'.pc && s'.pc[t].Idle?
      && if Sleepers(w.s) == {} then Sleepers(s') == {}
         else exists u :: u in Sleepers(w.s) && Sleepers(s') == Sleepers(w.s) - {u}
  {
    if a.Wake? {
      assert a.sleeper in Sleepers(w.s);
      assert Sleepers(Step(cfg, w, a).s) == Sleepers(w.s) - {a.sleeper};
    } else {
      forall u | u in w.s.pc ensures u !in Sleepers(w.s) {
        assert !w.s.pc[u].Asleep?;
      }
      assert Sleepers(w.s) == {};
    }
  }
}
