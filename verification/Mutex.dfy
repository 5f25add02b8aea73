// bionic/libc/bionic/pthread_mutex.cpp: normal, recursive and errorcheck mutexes
// without priority inheritance, as a transition system over the 16-bit state
// and owner_tid; one step per atomic operation, sequentially consistent.

/** What a mutex owes its callers. */
module MutexSpec {
  import opened Threads

  datatype Kind = Normal | Recursive | ErrorCheck

  /** Who holds the mutex, and how many successful locks it has not undone. */
  datatype Hold = Free | By(owner: Tid, depth: nat)

  datatype Event =
    | Quiet
    | Acquired
    | Reacquired          // a recursive lock by the owner
    | Unwound             // an unlock that leaves the owner holding it
    | Released
    | Busy                // EBUSY
    | WouldDeadlock       // EDEADLK
    | TooDeep             // EAGAIN
    | NotOwner            // EPERM
    | GaveUp              // ETIMEDOUT, or EINVAL for a bad timespec

  /** The counter has 11 bits and holds one less than the number of locks. */
  const MAX_DEPTH: nat := 2048

  ghost function After(h: Hold, t: Tid, e: Event): Hold {
    match e
    case Acquired => By(t, 1)
    case Reacquired => if h.By? then By(h.owner, h.depth + 1) else h
    case Unwound => if h.By? && h.depth > 0 then By(h.owner, h.depth - 1) else h
    case Released => Free
    case _ => h
  }

  ghost predicate Legal(kind: Kind, h: Hold, t: Tid, e: Event) {
    match e
    case Quiet => true
    case GaveUp => true
    case Acquired => h.Free?
    case Reacquired => kind.Recursive? && h.By? && h.owner == t && h.depth < MAX_DEPTH
    case Unwound => kind.Recursive? && h.By? && h.owner == t && h.depth > 1
    case Released => h == By(t, 1)
    case Busy => h.By?
    case WouldDeadlock => kind.ErrorCheck? && h.By? && h.owner == t
    case TooDeep => kind.Recursive? && h == By(t, MAX_DEPTH)
    case NotOwner => !kind.Normal? && !(h.By? && h.owner == t)
  }
}

module Mutex {
  import opened Threads
  import opened MutexSpec

  /** The two fields of the state that change; MutexWord relates them to the bits. */
  datatype Word = Word(lock: nat, counter: nat)

  const UNLOCKED := Word(0, 0)
  const LOCKED_UNCONTENDED := Word(1, 0)
  const LOCKED_CONTENDED := Word(2, 0)
  const MAX_COUNTER: nat := 2047

  /** pthread_mutex_trylock, lock and timedlock. */
  datatype Call = Try | Block | Timed

  datatype Pc =
    | Idle
    // Normal mutexes.
    | NTry(call: Call)                    // the first compare-exchange
    | NTryAgain(call: Call)               // NormalMutexLock's own compare-exchange
    | NExchange(call: Call)
    | NWait(call: Call)                   // futex_wait(locked_contended)
    | NUnlock                             // exchange(unlocked)
    // Recursive and errorcheck mutexes.
    | RLoad(call: Call)                   // load state
    | ROwner(call: Call, seen: Word)      // load owner_tid
    | RIncrement                          // fetch_add
    | RTry                                // trylock's compare-exchange
    | RFast(call: Call)                   // lock's first compare-exchange
    | RGrab(call: Call)                   // unlocked -> locked_contended, weak
    | RFlip(call: Call, seen: Word)       // locked_uncontended -> locked_contended, weak
    | RWaitTid(call: Call, seen: Word)    // load owner_tid for the 32-bit futex value
    | RWait(call: Call, seen: Word, tid: int)  // futex_wait
    | RReload(call: Call)                 // load state
    | RStore                              // store owner_tid
    | ULoad                               // load state
    | UOwner(seen: Word)                  // load owner_tid
    | UDecrement                          // fetch_sub
    | UClear                              // store 0 in owner_tid
    | UExchange                           // exchange(unlocked)
    // Both.
    | Asleep(call: Call)
    | WakeOne                             // futex_wake(1)

  datatype State = State(word: Word, ownerTid: int, pc: map<Tid, Pc>)

  /** On LP64 futex_wait compares the state alone, otherwise also owner_tid. */
  datatype Config = Config(kind: Kind, lp64: bool)

  datatype Action =
    | StartLock(tid: Tid, call: Call)
    | StartUnlock(tid: Tid)
    | Run(tid: Tid, spurious: bool, badTime: bool)
    | Wake(tid: Tid, sleeper: Tid)
    | Interrupt(tid: Tid)
    | Timeout(tid: Tid)

  predicate Enabled(cfg: Config, s: State, h: Hold, a: Action) {
    && a.tid in s.pc
    && match a
       case StartLock(t, _) => s.pc[t].Idle?
       case StartUnlock(t) =>
         // Unlocking a normal mutex that the caller does not hold is undefined.
         s.pc[t].Idle? && (cfg.kind.Normal? ==> h.By? && h.owner == t)
       case Run(t, spurious, badTime) =>
         && !s.pc[t].Idle? && !s.pc[t].Asleep?
         && (spurious ==> s.pc[t].RGrab? || s.pc[t].RFlip?)
         && (badTime ==>
           (s.pc[t].NTryAgain? || s.pc[t].RFast? || s.pc[t].RGrab? || s.pc[t].RFlip? || s.pc[t].RReload? ||
             s.pc[t].ROwner?)
                         && s.pc[t].call.Timed?)
         && (s.pc[t].WakeOne? ==> forall u | u in s.pc :: !s.pc[u].Asleep?)
       case Wake(t, u) => s.pc[t].WakeOne? && u in s.pc && s.pc[u].Asleep?
       case Interrupt(t) => s.pc[t].Asleep?
       case Timeout(t) => (s.pc[t].Asleep? || s.pc[t].NWait? || s.pc[t].RWait?) && s.pc[t].call.Timed?
  }

  function MoveTo(s: State, t: Tid, pc: Pc): State {
    s.(pc := s.pc[t := pc])
  }

  /** Where a thread goes when futex_wait returns other than by timeout. */
  function AfterWait(cfg: Config, call: Call): Pc {
    if cfg.kind.Normal? then NExchange(call) else RReload(call)
  }

  /** The head of MutexLockWithTimeout's loop on a freshly read state. */
  function Loop(cfg: Config, call: Call, w: Word, badTime: bool): (Pc, Event) {
    if w == UNLOCKED then (RGrab(call), Quiet)
    else if w.lock == 1 then (RFlip(call, w), Quiet)
    else GoWait(cfg, call, w, badTime)
  }

  function GoWait(cfg: Config, call: Call, w: Word, badTime: bool): (Pc, Event) {
    if badTime then (Idle, GaveUp)
    else if cfg.lp64 then (RWait(call, w, 0), Quiet) else (RWaitTid(call, w), Quiet)
  }

  /** owner_tid has been read and found to be, or not to be, the caller's. */
  function AfterOwner(cfg: Config, call: Call, seen: Word, mine: bool, badTime: bool): (Pc, Event) {
    if mine then
      if cfg.kind.ErrorCheck? then (Idle, if call.Try? then Busy else WouldDeadlock)
      else if seen.counter == MAX_COUNTER then (Idle, TooDeep)
      else (RIncrement, Quiet)
    else if call.Try? then (RTry, Quiet)
    else if seen == UNLOCKED then (RFast(call), Quiet)
    else Loop(cfg, call, seen, badTime)
  }

  function NextNormal(cfg: Config, s: State, t: Tid, badTime: bool): (State, Event)
    requires t in s.pc
  {
    match s.pc[t]
    case NTry(call) =>
      if s.word == UNLOCKED then (MoveTo(s.(word := LOCKED_UNCONTENDED), t, Idle), Acquired)
      else if call.Try? then (MoveTo(s, t, Idle), Busy)
      else (MoveTo(s, t, NTryAgain(call)), Quiet)
    case NTryAgain(call) =>
      if s.word == UNLOCKED then (MoveTo(s.(word := LOCKED_UNCONTENDED), t, Idle), Acquired)
      else if badTime then (MoveTo(s, t, Idle), GaveUp)
      else (MoveTo(s, t, NExchange(call)), Quiet)
    case NExchange(call) =>
      if s.word == UNLOCKED then (MoveTo(s.(word := LOCKED_CONTENDED), t, Idle), Acquired)
      else (MoveTo(s.(word := LOCKED_CONTENDED), t, NWait(call)), Quiet)
    case NWait(call) =>
      (MoveTo(s, t, if s.word == LOCKED_CONTENDED then Asleep(call) else NExchange(call)), Quiet)
    case NUnlock =>
      (MoveTo(s.(word := UNLOCKED), t, if s.word == LOCKED_CONTENDED then WakeOne else Idle), Released)
    case WakeOne => (MoveTo(s, t, Idle), Quiet)
    case _ => (s, Quiet)
  }

  function NextOwned(cfg: Config, s: State, t: Tid, spurious: bool, badTime: bool): (State, Event)
    requires t in s.pc
  {
    match s.pc[t]
    case RLoad(call) => (MoveTo(s, t, ROwner(call, s.word)), Quiet)
    case ROwner(call, seen) =>
      var (pc, e) := AfterOwner(cfg, call, seen, s.ownerTid == t, badTime);
      (MoveTo(s, t, pc), e)
    case RIncrement => (MoveTo(s.(word := s.word.(counter := s.word.counter + 1)), t, Idle), Reacquired)
    case RTry =>
      if s.word == UNLOCKED then (MoveTo(s.(word := LOCKED_UNCONTENDED), t, RStore), Acquired)
      else (MoveTo(s, t, Idle), Busy)
    case RFast(call) =>
      if s.word == UNLOCKED then (MoveTo(s.(word := LOCKED_UNCONTENDED), t, RStore), Acquired)
      else var (pc, e) := Loop(cfg, call, s.word, badTime); (MoveTo(s, t, pc), e)
    case RGrab(call) =>
      if s.word == UNLOCKED && !spurious then (MoveTo(s.(word := LOCKED_CONTENDED), t, RStore), Acquired)
      else var (pc, e) := Loop(cfg, call, s.word, badTime); (MoveTo(s, t, pc), e)
    case RFlip(call, seen) =>
      if s.word == seen && !spurious then
        var flipped := seen.(lock := 2);
        var (pc, e) := GoWait(cfg, call, flipped, badTime);
        (MoveTo(s.(word := flipped), t, pc), e)
      else var (pc, e) := Loop(cfg, call, s.word, badTime); (MoveTo(s, t, pc), e)
    case RWaitTid(call, seen) => (MoveTo(s, t, RWait(call, seen, s.ownerTid)), Quiet)
    case RWait(call, seen, tid) =>
      var same := s.word == seen && (cfg.lp64 || s.ownerTid == tid);
      (MoveTo(s, t, if same then Asleep(call) else RReload(call)), Quiet)
    case RReload(call) =>
      var (pc, e) := Loop(cfg, call, s.word, badTime);
      (MoveTo(s, t, pc), e)
    case RStore => (MoveTo(s.(ownerTid := t), t, Idle), Quiet)
    case _ => (s, Quiet)
  }

  function NextUnlock(s: State, t: Tid): (State, Event)
    requires t in s.pc
  {
    match s.pc[t]
    case ULoad => (MoveTo(s, t, UOwner(s.word)), Quiet)
    case UOwner(seen) =>
      if s.ownerTid != t then (MoveTo(s, t, Idle), NotOwner)
      else (MoveTo(s, t, if seen.counter != 0 then UDecrement else UClear), Quiet)
    case UDecrement =>
      // On the 16-bit state a decrement of counter 0 would borrow from the bits above.
      (MoveTo(s.(word := s.word.(counter := if s.word.counter > 0 then s.word.counter - 1 else MAX_COUNTER)), t, Idle),
       Unwound)
    case UClear => (MoveTo(s.(ownerTid := 0), t, UExchange), Quiet)
    case UExchange => (MoveTo(s.(word := UNLOCKED), t, if s.word.lock == 2 then WakeOne else Idle), Released)
    case WakeOne => (MoveTo(s, t, Idle), Quiet)
    case _ => (s, Quiet)
  }

  predicate InNormal(pc: Pc) {
    pc.NTry? || pc.NTryAgain? || pc.NExchange? || pc.NWait? || pc.NUnlock?
  }

  predicate InUnlock(pc: Pc) {
    pc.ULoad? || pc.UOwner? || pc.UDecrement? || pc.UClear? || pc.UExchange? || pc.WakeOne?
  }

  function Do(cfg: Config, s: State, h: Hold, a: Action): (State, Event)
    requires Enabled(cfg, s, h, a)
  {
    match a
    case StartLock(t, call) => (MoveTo(s, t, if cfg.kind.Normal? then NTry(call) else RLoad(call)), Quiet)
    case StartUnlock(t) => (MoveTo(s, t, if cfg.kind.Normal? then NUnlock else ULoad), Quiet)
    case Run(t, spurious, badTime) =>
      if InNormal(s.pc[t]) then NextNormal(cfg, s, t, badTime)
      else if InUnlock(s.pc[t]) then NextUnlock(s, t)
      else NextOwned(cfg, s, t, spurious, badTime)
    case Wake(t, u) => (MoveTo(MoveTo(s, u, AfterWait(cfg, s.pc[u].call)), t, Idle), Quiet)
    case Interrupt(t) => (MoveTo(s, t, AfterWait(cfg, s.pc[t].call)), Quiet)
    case Timeout(t) => (MoveTo(s, t, Idle), GaveUp)
  }

  ghost predicate Init(s: State) {
    s.word == UNLOCKED && s.ownerTid == 0 && forall t | t in s.pc :: s.pc[t].Idle?
  }
}
