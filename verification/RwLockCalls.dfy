/** Every answer of the read/write lock answers the call that was made, and undisturbed calls are answered as due. */
module RwLockCalls {
  import opened Common
  import opened Threads
  import opened Calls
  import opened RwLockSpec
  import opened RwLock
  import opened RwLockProof

  // ---------------------------------------------------------------- the calls of a run

  datatype Request = Lock(role: Role, how: Call) | Unlock

  type Visits = map<Tid, Visit<Request>>

  function Begins(a: Action): Option<Request> {
    match a
    case StartLock(_, role, call) => Some(Lock(role, call))
    case StartUnlock(_) => Some(Unlock)
    case _ => None
  }

  /** What the step by `a` that answers `e`, and leaves its thread outside or not, makes of the thread's call. */
  function Told(v: Visit<Request>, a: Action, e: RwLockSpec.Event, left: bool): Visit<Request> {
    Turn(v, Begins(a), a.Timeout?, !e.Quiet?, left)
  }

  lemma SameThreads(cfg: Config, w: World, a: Action)
    requires Enabled(cfg, w.s, w.h, a)
    ensures Step(cfg, w, a).s.pc.Keys == w.s.pc.Keys
  {
    if a.Run? && !w.s.pc[a.tid].UWakeAll? {
      MovesItself(cfg, w.s, a);
    }
  }

  /** Apart from the steps that wake others, a step moves only its own thread. */
  lemma MovesItself(cfg: Config, s: State, a: Action)
    requires a.Run? && a.tid in s.pc && !s.pc[a.tid].UWakeAll?
    ensures var s' := Next(cfg, s, a.tid, a.spurious, a.badTime).0;
            a.tid in s'.pc && s'.pc == s.pc[a.tid := s'.pc[a.tid]]
  {
  }

  ghost function NextCalls(cfg: Config, w: World, a: Action, calls: Visits): (r: Visits)
    requires Enabled(cfg, w.s, w.h, a) && calls.Keys == w.s.pc.Keys
    ensures r.Keys == Step(cfg, w, a).s.pc.Keys
  {
    SameThreads(cfg, w, a);
    var (s', e) := Do(cfg, w.s, w.h, a);
    calls[a.tid := Told(calls[a.tid], a, e, s'.pc[a.tid].Idle?)]
  }

  /** Which call each thread is in after `n` steps. */
  ghost function CallsAt(cfg: Config, ws: seq<World>, acts: seq<Action>, n: nat): (r: Visits)
    requires IsRun(cfg, ws, acts) && n <= |acts|
    ensures r.Keys == ws[n].s.pc.Keys
  {
    if n == 0 then map t | t in ws[0].s.pc :: Outside
    else
      NextCalls(cfg, ws[n - 1], acts[n - 1], CallsAt(cfg, ws, acts, n - 1))
  }

  /** The answers that pthread_rwlock_{rd,wr,try,timed}lock and _unlock can give. */
  predicate Fits(q: Request, e: RwLockSpec.Event) {
    match e
    case Quiet => true
    case Acquired(role) => q.Lock? && q.role == role
    case Busy(role) => q == Lock(role, Try)
    case TooMany => q.Lock? && q.role.Reader?
    case WouldDeadlock => q.Lock? && !q.how.Try?
    case GaveUp => q.Lock? && q.how.Timed?
    case Released(_) => q.Unlock?
    case NotOwner => q.Unlock?
  }

  // ---------------------------------------------------------------- invariant

  predicate Serves(pc: Pc, v: Visit<Request>) {
    match pc
    case Idle => v.Outside?
    case Self(role, call) => v == Asked(Lock(role, call), false) && !call.Try?
    case Load(role, call, fast) => v == Asked(Lock(role, call), false) && (call.Try? ==> fast)
    case Cas(role, call, fast, _) => v == Asked(Lock(role, call), false) && (call.Try? ==> fast)
    case StoreTid => v.Answered? && v.call.Lock? && v.call.role.Writer?
    case Recheck(role, call) => v == Asked(Lock(role, call), false) && !call.Try?
    case Enqueue(role, call) => v == Asked(Lock(role, call), false) && !call.Try?
    case Prepared(role, call, _, _) => v == Asked(Lock(role, call), false) && !call.Try?
    case Asleep(role, call) => v == Asked(Lock(role, call), false) && !call.Try?
    case Dequeue(role, timedOut, call) =>
      v == Asked(Lock(role, call), timedOut) && !call.Try? && (timedOut ==> call.Timed?)
    case UPick => v == Answered(Unlock)
    case UWakeOne => v == Answered(Unlock)
    case UWakeAll => v == Answered(Unlock)
    case _ => v == Asked(Unlock, false)
  }

  ghost predicate AllServe(s: State, calls: Visits) {
    && calls.Keys == s.pc.Keys
    && forall t {:trigger Serves(s.pc[t], calls[t])} | t in s.pc :: Serves(s.pc[t], calls[t])
  }

  /** What the step by `a` may tell a thread that is in call `v`; `left` if the thread is outside afterwards. */
  predicate Proper(v: Visit<Request>, a: Action, e: RwLockSpec.Event, left: bool) {
    // A call starts outside the functions and is not answered by being made.
    && (Begins(a).Some? ==> v.Outside? && e.Quiet? && !left)
    // An answer goes to a call that has none yet, and is one of that call's answers.
    && (!e.Quiet? ==> v.Asked? && Fits(v.call, e))
    // A call gives up only if its wait timed out or its timespec was found bad, and then it does.
    && (e.GaveUp? ==> v.late || (a.Run? && a.badTime))
    && (v.Asked? && v.late ==> e.GaveUp?)
    // A function returns only when it has answered.
    && (left ==> v.Answered? || !e.Quiet?)
  }

  ghost predicate CallsKept(cfg: Config, w: World, a: Action, calls: Visits)
    requires Enabled(cfg, w.s, w.h, a) && calls.Keys == w.s.pc.Keys
  {
    SameThreads(cfg, w, a);
    var (s', e) := Do(cfg, w.s, w.h, a);
    && Proper(calls[a.tid], a, e, s'.pc[a.tid].Idle?)
    // Nobody but the thread that takes the step starts or finishes a call.
    && forall u | u in w.s.pc && u != a.tid :: s'.pc[u].Idle? <==> w.s.pc[u].Idle?
  }

  /** The thread that takes the step is told what it may be, and goes where its call wants it. */
  ghost predicate MoverOk(cfg: Config, s: State, h: Holders, a: Action, v: Visit<Request>)
    requires Enabled(cfg, s, h, a)
  {
    var (s', e) := Do(cfg, s, h, a);
    && a.tid in s'.pc && Proper(v, a, e, s'.pc[a.tid].Idle?)
    && Serves(s'.pc[a.tid], Told(v, a, e, s'.pc[a.tid].Idle?))
  }

  predicate Tries(pc: Pc) { pc.Load? || pc.Cas? }

  predicate Waits(pc: Pc) {
    pc.Self? || pc.StoreTid? || pc.Recheck? || pc.Enqueue? || pc.Prepared? || pc.Asleep? || pc.Dequeue?
  }

  predicate Unlocks(pc: Pc) { !Tries(pc) && !Waits(pc) }

  lemma TryingServes(cfg: Config, s: State, h: Holders, a: Action, v: Visit<Request>)
    requires Enabled(cfg, s, h, a) && Serves(s.pc[a.tid], v) && a.Run? && Tries(s.pc[a.tid])
    ensures MoverOk(cfg, s, h, a, v)
  {
  }

  lemma WaitingServes(cfg: Config, s: State, h: Holders, a: Action, v: Visit<Request>)
    requires Enabled(cfg, s, h, a) && Serves(s.pc[a.tid], v) && a.Run? && Waits(s.pc[a.tid])
    ensures MoverOk(cfg, s, h, a, v)
  {
  }

  lemma UnlockingServes(cfg: Config, s: State, h: Holders, a: Action, v: Visit<Request>)
    requires Enabled(cfg, s, h, a) && Serves(s.pc[a.tid], v) && a.Run? && Unlocks(s.pc[a.tid])
    ensures MoverOk(cfg, s, h, a, v)
  {
  }

  lemma MoverServes(cfg: Config, s: State, h: Holders, a: Action, v: Visit<Request>)
    requires Enabled(cfg, s, h, a) && Serves(s.pc[a.tid], v)
    ensures MoverOk(cfg, s, h, a, v)
  {
    if a.Run? {
      if Tries(s.pc[a.tid]) { TryingServes(cfg, s, h, a, v); }
      else if Waits(s.pc[a.tid]) { WaitingServes(cfg, s, h, a, v); }
      else { UnlockingServes(cfg, s, h, a, v); }
    }
  }

  lemma OtherServes(cfg: Config, w: World, a: Action, u: Tid, v: Visit<Request>)
    requires Enabled(cfg, w.s, w.h, a) && u in w.s.pc && u != a.tid && Serves(w.s.pc[u], v)
    ensures var s' := Step(cfg, w, a).s;
            u in s'.pc && Serves(s'.pc[u], v) && (s'.pc[u].Idle? <==> w.s.pc[u].Idle?)
  {
    if a.Run? && !w.s.pc[a.tid].UWakeAll? {
      MovesItself(cfg, w.s, a);
    }
  }

  lemma StepServes(cfg: Config, w: World, a: Action, calls: Visits)
    requires Enabled(cfg, w.s, w.h, a) && AllServe(w.s, calls)
    ensures CallsKept(cfg, w, a, calls) && AllServe(Step(cfg, w, a).s, NextCalls(cfg, w, a, calls))
  {
    SameThreads(cfg, w, a);
    var (s', calls') := (Step(cfg, w, a).s, NextCalls(cfg, w, a, calls));
    forall u | u in w.s.pc
      ensures Serves(s'.pc[u], calls'[u])
      ensures u != a.tid ==> (s'.pc[u].Idle? <==> w.s.pc[u].Idle?)
    {
      assert Serves(w.s.pc[u], calls[u]);
      if u == a.tid { MoverServes(cfg, w.s, w.h, a, calls[u]); } else { OtherServes(cfg, w, a, u, calls[u]); }
    }
    assert Serves(w.s.pc[a.tid], calls[a.tid]);
    MoverServes(cfg, w.s, w.h, a, calls[a.tid]);
  }

  lemma {:induction false} RunServesAt(cfg: Config, ws: seq<World>, acts: seq<Action>, n: nat)
    requires IsRun(cfg, ws, acts) && n <= |acts|
    ensures AllServe(ws[n].s, CallsAt(cfg, ws, acts, n))
  {
    if n > 0 {
      RunServesAt(cfg, ws, acts, n - 1);
      StepServes(cfg, ws[n - 1], acts[n - 1], CallsAt(cfg, ws, acts, n - 1));
    }
  }

  /** In every run each call gets one answer, of its own kind, before its function returns. */
  lemma EveryCallIsAnswered(cfg: Config, ws: seq<World>, acts: seq<Action>, n: nat)
    requires IsRun(cfg, ws, acts) && n < |acts|
    ensures CallsKept(cfg, ws[n], acts[n], CallsAt(cfg, ws, acts, n))
  {
    RunServesAt(cfg, ws, acts, n);
    StepServes(cfg, ws[n], acts[n], CallsAt(cfg, ws, acts, n));
  }

  // ---------------------------------------------------------------- the writer's own calls

  /** Past the comparison with writer_tid. */
  predicate Past(pc: Pc) {
    || ((pc.Load? || pc.Cas?) && !pc.fast)
    || pc.Recheck? || pc.Enqueue? || pc.Prepared? || pc.Asleep? || pc.Dequeue?
  }

  /** A writer that locks again finds out before it waits. */
  ghost predicate WriterTold(w: World) {
    w.h.writer.Some? && w.h.writer.value in w.s.pc ==> !Past(w.s.pc[w.h.writer.value])
  }

  lemma RunnerTold(cfg: Config, w: World, a: Action)
    requires Safe(w) && WriterTold(w) && Enabled(cfg, w.s, w.h, a) && a.Run?
    requires Step(cfg, w, a).h.writer == Some(a.tid)
    ensures a.tid in Step(cfg, w, a).s.pc && !Past(Step(cfg, w, a).s.pc[a.tid])
  {
    assert PcOk(w, a.tid, w.s.pc[a.tid]);
  }

  lemma WriterToldStep(cfg: Config, w: World, a: Action)
    requires Safe(w) && WriterTold(w) && Enabled(cfg, w.s, w.h, a)
    ensures WriterTold(Step(cfg, w, a))
  {
    var w' := Step(cfg, w, a);
    if w'.h.writer.Some? {
      if w'.h.writer.value != a.tid {
        assert w.h.writer == w'.h.writer;
        if a.Run? && !w.s.pc[a.tid].UWakeAll? { MovesItself(cfg, w.s, a); }
      } else if a.Run? {
        RunnerTold(cfg, w, a);
      }
    }
  }

  lemma {:induction false} WriterToldAt(cfg: Config, ws: seq<World>, acts: seq<Action>, n: nat)
    requires IsRun(cfg, ws, acts) && n <= |acts|
    ensures WriterTold(ws[n])
  {
    if n > 0 {
      WriterToldAt(cfg, ws, acts, n - 1);
      RunIsSafe(cfg, ws, acts, n - 1);
      WriterToldStep(cfg, ws[n - 1], acts[n - 1]);
    }
  }

  /** Who holds the lock for writing and asks for it again never waits for itself. */
  lemma ReachableIsTold(cfg: Config, w: World)
    requires Reachable(cfg, w)
    ensures WriterTold(w)
  {
    var ws, acts :| IsRun(cfg, ws, acts) && w == ws[|acts|];
    WriterToldAt(cfg, ws, acts, |acts|);
  }

  // ---------------------------------------------------------------- undisturbed calls

  /** Thread `t` runs on, `steps` steps at most, until it is answered or cannot go on. */
  ghost function Alone(cfg: Config, w: World, t: Tid, steps: nat): (World, RwLockSpec.Event)
    decreases steps
  {
    var a := Run(t, false, false);
    if steps == 0 || !Enabled(cfg, w.s, w.h, a) then (w, Quiet)
    else if RwLockProof.Event(cfg, w, a).Quiet? then Alone(cfg, Step(cfg, w, a), t, steps - 1)
    else (Step(cfg, w, a), RwLockProof.Event(cfg, w, a))
  }

  /** The answer that a lock call is due; Quiet if the caller has to wait. */
  ghost function Due(cfg: Config, w: World, t: Tid, role: Role, call: Call): RwLockSpec.Event {
    var free := w.h.writer.None? && match role
      case Reader => !(cfg.writersFirst && Queue(w.s, Writer) != {})
      case Writer => w.h.readers == multiset{};
    if free then if role.Reader? && |w.h.readers| == MAX_READERS then TooMany else Acquired(role)
    else if call.Try? then Busy(role)
    else if w.h.writer == Some(t) then WouldDeadlock
    else Quiet
  }

  /** tryXXlock on a lock that the caller may take. */
  lemma TakeAlone(cfg: Config, w: World, t: Tid, steps: nat)
    requires t in w.s.pc && w.s.pc[t].Load? && CanAcquire(cfg, w.s.pc[t].role, w.s.word) && steps >= 2
    requires w.s.pc[t].fast && !w.s.pc[t].call.Try? && w.s.pc[t].role.Reader? ==> w.s.word.readers < MAX_READERS
    ensures Alone(cfg, w, t, steps).1 ==
      if w.s.pc[t].role.Reader? && w.s.word.readers >= MAX_READERS then TooMany else Acquired(w.s.pc[t].role)
  {
    var (a, role) := (Run(t, false, false), w.s.pc[t].role);
    var w1 := Step(cfg, w, a);
    if w1.s.pc[t].Cas? {
      assert w1.s.word == w1.s.pc[t].seen && Enabled(cfg, w1.s, w1.h, a);
      assert RwLockProof.Event(cfg, w1, a) == Acquired(role);
    }
  }

  /** The way into the futex, from the second look at the state. */
  lemma SleepAlone(cfg: Config, w: World, t: Tid, steps: nat)
    requires t in w.s.pc && w.s.pc[t].Recheck? && !CanAcquire(cfg, w.s.pc[t].role, w.s.word) && steps >= 3
    ensures var (w', e) := Alone(cfg, w, t, steps);
            e.Quiet? && t in w'.s.pc && w'.s.pc[t] == Asleep(w.s.pc[t].role, w.s.pc[t].call)
  {
    var (a, role, call) := (Run(t, false, false), w.s.pc[t].role, w.s.pc[t].call);
    var w1 := Step(cfg, w, a);
    assert w1.s.pc[t] == Enqueue(role, call) && Enabled(cfg, w1.s, w1.h, a);
    var w2 := Step(cfg, w1, a);
    assert w2.s.pc[t] == Prepared(role, call, w.s.serial.Get(role), false) && Enabled(cfg, w2.s, w2.h, a);
    var w3 := Step(cfg, w2, a);
    assert w3.s.pc[t] == Asleep(role, call);
    assert Alone(cfg, w2, t, steps - 2) == Alone(cfg, w3, t, steps - 3) == (w3, Quiet);
    assert Alone(cfg, w, t, steps) == Alone(cfg, w1, t, steps - 1);
  }

  /** The loop of XXlock_timedwait, from a look at the state. */
  lemma LoopAlone(cfg: Config, w: World, t: Tid, steps: nat)
    requires t in w.s.pc && w.s.pc[t].Load? && !w.s.pc[t].fast && !w.s.pc[t].call.Try? && steps >= 4
    ensures var (pc, w', e) := (w.s.pc[t], Alone(cfg, w, t, steps).0, Alone(cfg, w, t, steps).1);
      if CanAcquire(cfg, pc.role, w.s.word) then
        e == if pc.role.Reader? && w.s.word.readers >= MAX_READERS then TooMany else Acquired(pc.role)
      else e.Quiet? && t in w'.s.pc && w'.s.pc[t] == Asleep(pc.role, pc.call)
  {
    var (a, pc) := (Run(t, false, false), w.s.pc[t]);
    if CanAcquire(cfg, pc.role, w.s.word) {
      TakeAlone(cfg, w, t, steps);
    } else {
      var w1 := Step(cfg, w, a);
      assert w1.s.pc[t] == Recheck(pc.role, pc.call) && w1.s.word == w.s.word;
      SleepAlone(cfg, w1, t, steps - 1);
    }
  }

  /** XXlock_timedwait, from the comparison with writer_tid. */
  lemma SlowAlone(cfg: Config, w: World, t: Tid, steps: nat)
    requires t in w.s.pc && w.s.pc[t].Self? && !w.s.pc[t].call.Try? && steps >= 5
    ensures var (role, w', e) := (w.s.pc[t].role, Alone(cfg, w, t, steps).0, Alone(cfg, w, t, steps).1);
      if w.s.writerTid == t then e == WouldDeadlock
      else if CanAcquire(cfg, role, w.s.word) then
        e == if role.Reader? && w.s.word.readers >= MAX_READERS then TooMany else Acquired(role)
      else e.Quiet? && t in w'.s.pc && w'.s.pc[t] == Asleep(role, w.s.pc[t].call)
  {
    var (a, role, call) := (Run(t, false, false), w.s.pc[t].role, w.s.pc[t].call);
    if w.s.writerTid != t {
      var w1 := Step(cfg, w, a);
      assert w1.s.pc[t] == Load(role, call, false) && w1.s.word == w.s.word;
      LoopAlone(cfg, w1, t, steps - 1);
    }
  }

  /** tryXXlock and XXlock, from the first look at the state. */
  lemma FastAlone(cfg: Config, w: World, t: Tid, steps: nat)
    requires t in w.s.pc && w.s.pc[t].Load? && w.s.pc[t].fast && steps >= 6
    ensures var (pc, w', e) := (w.s.pc[t], Alone(cfg, w, t, steps).0, Alone(cfg, w, t, steps).1);
      if CanAcquire(cfg, pc.role, w.s.word) && !(pc.role.Reader? && w.s.word.readers >= MAX_READERS) then
        e == Acquired(pc.role)
      else if pc.call.Try? then
        e == if CanAcquire(cfg, pc.role, w.s.word) then TooMany else Busy(pc.role)
      else if w.s.writerTid == t then e == WouldDeadlock
      else if CanAcquire(cfg, pc.role, w.s.word) then e == TooMany
      else e.Quiet? && t in w'.s.pc && w'.s.pc[t] == Asleep(pc.role, pc.call)
  {
    var (a, pc) := (Run(t, false, false), w.s.pc[t]);
    if CanAcquire(cfg, pc.role, w.s.word) && !(pc.role.Reader? && w.s.word.readers >= MAX_READERS) {
      TakeAlone(cfg, w, t, steps);
    } else if !pc.call.Try? {
      var w1 := Step(cfg, w, a);
      assert w1.s.pc[t] == Self(pc.role, pc.call) && w1.s.word == w.s.word && w1.s.writerTid == w.s.writerTid;
      SlowAlone(cfg, w1, t, steps - 1);
    }
  }

  /** A lock call that nobody disturbs gets the answer it is due, or sleeps for its role if it is due none. */
  lemma LockAlone(cfg: Config, w: World, t: Tid, role: Role, call: Call)
    requires Reachable(cfg, w) && t in w.s.pc && w.s.pc[t].Idle?
    ensures var (w', e) := Alone(cfg, Step(cfg, w, StartLock(t, role, call)), t, 6);
            && e == Due(cfg, w, t, role, call)
            && (e.Quiet? ==> t in w'.s.pc && w'.s.pc[t] == Asleep(role, call))
  {
    ReachableIsSafe(cfg, w);
    var w1 := Step(cfg, w, StartLock(t, role, call));
    assert CanAcquire(cfg, role, w1.s.word) <==> !Due(cfg, w, t, role, Try).Busy?;
    assert w.h.writer == Some(t) <==> w1.s.writerTid == t;
    if call.Timed? {
      SlowAlone(cfg, w1, t, 6);
    } else {
      FastAlone(cfg, w1, t, 6);
    }
  }

  lemma TriesDoNotWait(cfg: Config, w: World, t: Tid)
    requires Reachable(cfg, w) && t in w.s.pc && w.s.pc[t].Dequeue?
    ensures !w.s.pc[t].call.Try?
  {
    var ws, acts :| IsRun(cfg, ws, acts) && w == ws[|acts|];
    RunServesAt(cfg, ws, acts, |acts|);
    assert Serves(w.s.pc[t], CallsAt(cfg, ws, acts, |acts|)[t]);
  }

  /** A waiter that nobody disturbs any more leaves its queue and gets the lock it is due, or sleeps again. */
  lemma WokenAlone(cfg: Config, w: World, t: Tid, role: Role, call: Call)
    requires Reachable(cfg, w) && t in w.s.pc && w.s.pc[t] == Dequeue(role, false, call)
    ensures var (w', e) := Alone(cfg, w, t, 5);
            && e == Due(cfg, w, t, role, call)
            && (e.Quiet? ==> t in w'.s.pc && w'.s.pc[t] == Asleep(role, call))
  {
    ReachableIsSafe(cfg, w);
    ReachableIsTold(cfg, w);
    TriesDoNotWait(cfg, w, t);
    assert PcOk(w, t, w.s.pc[t]);
    var (a, w1) := (Run(t, false, false), Step(cfg, w, Run(t, false, false)));
    assert Enabled(cfg, w.s, w.h, a) && RwLockProof.Event(cfg, w, a).Quiet?;
    assert w1.s.pc[t] == Load(role, call, false);
    assert CanAcquire(cfg, role, w1.s.word) <==> CanAcquire(cfg, role, w.s.word);
    assert CanAcquire(cfg, role, w.s.word) <==> !Due(cfg, w, t, role, Try).Busy?;
    LoopAlone(cfg, w1, t, 4);
  }

  /** pthread_rwlock_unlock of a write-held lock, from the comparison with writer_tid. */
  lemma ClearAlone(cfg: Config, w: World, t: Tid, steps: nat)
    requires t in w.s.pc && w.s.pc[t].UTid? && steps >= 3
    ensures var (w', e) := Alone(cfg, w, t, steps);
      && e == (if w.s.writerTid == t then Released(Writer) else NotOwner)
      && t in w'.s.pc && w'.s.pc[t] == if e.Released? && w.s.word.AnyPending() then UPick else Idle
  {
    var a := Run(t, false, false);
    if w.s.writerTid == t {
      var w1 := Step(cfg, w, a);
      assert w1.s.pc[t].UClear? && Enabled(cfg, w1.s, w1.h, a);
      var w2 := Step(cfg, w1, a);
      assert w2.s.pc[t].UAnd? && Enabled(cfg, w2.s, w2.h, a);
      assert Alone(cfg, w2, t, steps - 2) == (Step(cfg, w2, a), Released(Writer));
    }
  }

  /** pthread_rwlock_unlock, from the first look at the state. */
  lemma OpenAlone(cfg: Config, w: World, t: Tid, steps: nat)
    requires t in w.s.pc && w.s.pc[t].ULoad? && steps >= 4
    requires !w.s.word.writer && w.s.word.readers > 0 ==> t in w.h.readers
    ensures var (w', e) := Alone(cfg, w, t, steps);
      && e == (if w.s.word.writer then if w.s.writerTid == t then Released(Writer) else NotOwner
               else if w.s.word.readers > 0 then Released(Reader) else NotOwner)
      && t in w'.s.pc
      && w'.s.pc[t] == if e.Released? && (w.s.word.writer || w.s.word.readers == 1) && w.s.word.AnyPending() then UPick
                       else Idle
  {
    var a := Run(t, false, false);
    var w1 := Step(cfg, w, a);
    if w.s.word.writer {
      ClearAlone(cfg, w1, t, steps - 1);
    } else if w.s.word.readers > 0 {
      assert w1.s.pc[t].USub? && Enabled(cfg, w1.s, w1.h, a);
      assert Alone(cfg, w1, t, steps - 1) == (Step(cfg, w1, a), Released(Reader));
    }
  }

  /**
   * An unlock call that nobody disturbs releases what its caller holds and is refused if that is
   * nothing; it goes on to wake somebody exactly if the lock is free then and somebody is queued.
   */
  lemma UnlockAlone(cfg: Config, w: World, t: Tid)
    requires Reachable(cfg, w) && t in w.s.pc && w.s.pc[t].Idle?
    requires w.h.readers != multiset{} ==> t in w.h.readers
    ensures var (w', e) := Alone(cfg, Step(cfg, w, StartUnlock(t)), t, 4);
      && e == (if w.h.writer == Some(t) then Released(Writer)
               else if t in w.h.readers then Released(Reader) else NotOwner)
      && t in w'.s.pc
      && w'.s.pc[t] == if e.Released? && |w.h.readers| <= 1 && Queue(w.s, Reader) + Queue(w.s, Writer) != {} then UPick
                       else Idle
  {
    ReachableIsSafe(cfg, w);
    var w1 := Step(cfg, w, StartUnlock(t));
    assert w1.s.word == w.s.word && w1.s.writerTid == w.s.writerTid && w1.h == w.h;
    OpenAlone(cfg, w1, t, 4);
  }

  // ---------------------------------------------------------------- wakeups

  ghost function Sleepers(s: State, role: Role): set<Tid> {
    Where(s.pc, pc => Sleeping(role, pc))
  }

  /**
   * An unlocker that chooses whom to wake outdates the waits of the queued writers if there are
   * any and of the queued readers if there are only those, and is done if nobody is queued.
   */
  lemma PicksWhomToWake(cfg: Config, w: World, t: Tid)
    requires Reachable(cfg, w) && t in w.s.pc && w.s.pc[t].UPick?
    ensures var (a, s) := (Run(t, false, false), w.s);
      && Enabled(cfg, w.s, w.h, a)
      && Step(cfg, w, a).s ==
           if Queue(s, Writer) != {} then
             s.(serial := s.serial.(wr := s.serial.wr + 1), pc := s.pc[t := UWakeOne])
           else if Queue(s, Reader) != {} then
             s.(serial := s.serial.(rd := s.serial.rd + 1), pc := s.pc[t := UWakeAll])
           else s.(pc := s.pc[t := Idle])
  {
    ReachableIsSafe(cfg, w);
  }

  /** The wakeup itself leaves no reader asleep, or one writer fewer if one is asleep, and nobody else moves. */
  lemma WakesThem(cfg: Config, w: World, t: Tid, a: Action)
    requires t in w.s.pc && Enabled(cfg, w.s, w.h, a) && a.tid == t && (w.s.pc[t].UWakeOne? || w.s.pc[t].UWakeAll?)
    ensures var (s, s') := (w.s, Step(cfg, w, a).s);
      && t in s'.pc && s'.pc[t].Idle?
      && (s.pc[t].UWakeAll? ==> Sleepers(s', Reader) == {} && Sleepers(s', Writer) == Sleepers(s, Writer))
      && (s.pc[t].UWakeOne? ==>
            && Sleepers(s', Reader) == Sleepers(s, Reader)
            && if Sleepers(s, Writer) == {} then Sleepers(s', Writer) == {}
               else exists u :: u in Sleepers(s, Writer) && Sleepers(s', Writer) == Sleepers(s, Writer) - {u})
  {
    if a.Wake? {
      assert a.sleeper in Sleepers(w.s, Writer);
      assert Sleepers(Step(cfg, w, a).s, Writer) == Sleepers(w.s, Writer) - {a.sleeper};
    } else if w.s.pc[t].UWakeOne? {
      forall u | u in w.s.pc ensures u !in Sleepers(w.s, Writer) {
        assert !(w.s.pc[u].Asleep? && w.s.pc[u].role.Writer?);
      }
      assert Sleepers(w.s, Writer) == {};
    }
  }
}
