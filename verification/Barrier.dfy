// bionic/libc/bionic/pthread_barrier.cpp as a transition system: one step per
// access to state or wait_count, sequentially consistent.

/** What a barrier for a fixed set of threads owes them, cycle by cycle. */
module BarrierSpec {
  import opened Threads

  /**
   * How often each thread has entered and left the barrier, how often the
   * barrier has reopened, and who came last in each cycle.
   */
  datatype History = History(entered: map<Tid, nat>, returned: map<Tid, nat>, reopened: nat, last: map<nat, Tid>)

  datatype Event =
    | Quiet
    | Entered
    | Reopened
    | Returned(serial: bool)   // 0 or PTHREAD_BARRIER_SERIAL_THREAD
    | Refused                  // EINVAL

  ghost function Count(m: map<Tid, nat>, t: Tid): nat {
    if t in m then m[t] else 0
  }

  ghost predicate AllEntered(threads: set<Tid>, h: History, cycle: nat) {
    forall u | u in threads :: Count(h.entered, u) >= cycle
  }

  ghost function After(threads: set<Tid>, h: History, t: Tid, e: Event): History {
    match e
    case Entered =>
      var h' := h.(entered := h.entered[t := Count(h.entered, t) + 1]);
      var cycle := Count(h'.entered, t);
      if AllEntered(threads, h', cycle) then h'.(last := h'.last[cycle := t]) else h'
    case Returned(_) => h.(returned := h.returned[t := Count(h.returned, t) + 1])
    case Reopened => h.(reopened := h.reopened + 1)
    case _ => h
  }

  /**
   * A thread leaves a cycle only when all have entered it, and is the serial
   * thread exactly when it came last; nobody is refused.
   */
  ghost predicate Legal(threads: set<Tid>, h: History, t: Tid, e: Event) {
    match e
    case Returned(serial) =>
      var cycle := Count(h.returned, t) + 1;
      && AllEntered(threads, h, cycle)
      && cycle in h.last
      && (serial <==> h.last[cycle] == t)
    case Refused => false
    case _ => true
  }
}

module Barrier {
  import opened Threads
  import opened BarrierSpec

  datatype Pc =
    | Idle
    // Until the previous cycle is over.
    | Check                    // load state
    | GoSleepOld               // futex_wait(RELEASE)
    | AsleepOld
    // Entering.
    | LoadCount
    | Cas(prev: nat)
    // Inside.
    | Publish(prev: nat)       // store RELEASE
    | WakeOthers(prev: nat)    // futex_wake(prev)
    | Await                    // load state
    | GoSleepNew               // futex_wait(WAIT)
    | AsleepNew
    | Leave(serial: bool)      // fetch_sub
    // The last to leave.
    | Reset(serial: bool)      // store WAIT
    | WakeNext(serial: bool)   // futex_wake(init_count)

  datatype State = State(release: bool, waitCount: nat, pc: map<Tid, Pc>)

  datatype Action =
    | Call(tid: Tid)
    | Run(tid: Tid, spurious: bool)
    | Wake(tid: Tid, woken: set<Tid>)   // futex_wake and the sleepers the kernel picks
    | Interrupt(tid: Tid)

  predicate IsAsleep(pc: Pc) { pc.AsleepOld? || pc.AsleepNew? }

  ghost function Sleepers(s: State): set<Tid> { Where(s.pc, IsAsleep) }

  /** How many sleepers the thread's futex_wake is for. */
  function WakeLimit(n: nat, pc: Pc): nat {
    match pc
    case WakeOthers(prev) => prev
    case WakeNext(_) => n
    case _ => 0
  }

  ghost predicate Enabled(n: nat, s: State, a: Action) {
    && a.tid in s.pc
    && match a
       case Call(t) => s.pc[t].Idle?
       case Run(t, spurious) =>
         && !s.pc[t].Idle? && !IsAsleep(s.pc[t]) && !s.pc[t].WakeOthers? && !s.pc[t].WakeNext?
         && (spurious ==> s.pc[t].Cas?)
       case Wake(t, woken) =>
         && (s.pc[t].WakeOthers? || s.pc[t].WakeNext?)
         && woken <= Sleepers(s)
         && |woken| == if |Sleepers(s)| < WakeLimit(n, s.pc[t]) then |Sleepers(s)| else WakeLimit(n, s.pc[t])
       case Interrupt(t) => IsAsleep(s.pc[t])
  }

  function Awake(pc: Pc): Pc {
    if pc.AsleepOld? then Check else if pc.AsleepNew? then Await else pc
  }

  function WakeAll(pc: map<Tid, Pc>, woken: set<Tid>): (r: map<Tid, Pc>)
    ensures r.Keys == pc.Keys
  {
    map u | u in pc :: if u in woken then Awake(pc[u]) else pc[u]
  }

  function MoveTo(s: State, t: Tid, pc: Pc): State {
    s.(pc := s.pc[t := pc])
  }

  /** The loop test on a freshly read wait_count. */
  function Admit(n: nat, s: State, t: Tid): (State, Event) {
    if s.waitCount >= n then (MoveTo(s, t, Idle), Refused) else (MoveTo(s, t, Cas(s.waitCount)), Quiet)
  }

  function Next(n: nat, s: State, t: Tid, spurious: bool): (State, Event)
    requires t in s.pc
  {
    match s.pc[t]
    case Check => (MoveTo(s, t, if s.release then GoSleepOld else LoadCount), Quiet)
    case GoSleepOld => (MoveTo(s, t, if s.release then AsleepOld else Check), Quiet)
    case LoadCount => Admit(n, s, t)
    case Cas(prev) =>
      if s.waitCount != prev || spurious then Admit(n, s, t)
      else
        var pc := if prev + 1 != n then Await else if prev != 0 then Publish(prev) else Leave(true);
        (MoveTo(s.(waitCount := prev + 1), t, pc), Entered)
    case Publish(prev) => (MoveTo(s.(release := true), t, WakeOthers(prev)), Quiet)
    case Await => (MoveTo(s, t, if s.release then Leave(false) else GoSleepNew), Quiet)
    case GoSleepNew => (MoveTo(s, t, if s.release then Await else AsleepNew), Quiet)
    case Leave(serial) =>
      var count := if s.waitCount > 0 then s.waitCount - 1 else 0xffff_ffff;   // unsigned fetch_sub
      if s.waitCount == 1 then (MoveTo(s.(waitCount := count), t, Reset(serial)), Quiet)
      else (MoveTo(s.(waitCount := count), t, Idle), Returned(serial))
    case Reset(serial) => (MoveTo(s.(release := false), t, WakeNext(serial)), Reopened)
    case _ => (s, Quiet)
  }

  /** After its futex_wake the thread leaves or returns. */
  function AfterWake(pc: Pc): (Pc, Event) {
    match pc
    case WakeOthers(_) => (Leave(true), Quiet)
    case WakeNext(serial) => (Idle, Returned(serial))
    case _ => (pc, Quiet)
  }

  ghost function Do(n: nat, s: State, a: Action): (State, Event)
    requires Enabled(n, s, a)
  {
    match a
    case Call(t) => (MoveTo(s, t, Check), Quiet)
    case Run(t, spurious) => Next(n, s, t, spurious)
    case Wake(t, woken) =>
      var (pc, e) := AfterWake(s.pc[t]);
      (MoveTo(s.(pc := WakeAll(s.pc, woken)), t, pc), e)
    case Interrupt(t) => (MoveTo(s, t, Awake(s.pc[t])), Quiet)
  }

  /** pthread_barrier_init for `n` participants. */
  ghost predicate Init(n: nat, s: State) {
    && n > 0 && |s.pc.Keys| == n && !s.release && s.waitCount == 0
    && forall t | t in s.pc :: s.pc[t].Idle?
  }
}
