// bionic/libc/bionic/pthread_rwlock.cpp: the read/write lock as a transition
// system. Every access to a shared word is one step; atomics are sequentially
// consistent; each critical section of pending_lock contains one access to the
// unprotected state word and is one step.

/** What a read/write lock owes its callers, independent of how it is built. */
module RwLockSpec {
  import opened Common
  import opened Threads

  datatype Role = Reader | Writer

  /** Who holds the lock: a thread may hold it for reading several times. */
  datatype Holders = Holders(writer: Option<Tid>, readers: multiset<Tid>)

  /** What a step of thread `t` tells its caller; Quiet steps return nothing. */
  datatype Event =
    | Quiet
    | Acquired(role: Role)
    | Released(role: Role)
    | Busy(role: Role)       // EBUSY
    | TooMany                // EAGAIN
    | WouldDeadlock          // EDEADLK
    | NotOwner               // EPERM
    | GaveUp                 // ETIMEDOUT, or EINVAL for a bad timespec

  const MAX_READERS: nat := 0x1fff_ffff

  /** The holders after the event. */
  ghost function After(h: Holders, t: Tid, e: Event): Holders {
    match e
    case Acquired(Reader) => h.(readers := h.readers + multiset{t})
    case Acquired(Writer) => h.(writer := Some(t))
    case Released(Reader) => h.(readers := h.readers - multiset{t})
    case Released(Writer) => h.(writer := None)
    case _ => h
  }

  /** May thread `t` be told `e` when the holders are `h`? `waiting` are the writers queued up. */
  ghost predicate Legal(writersFirst: bool, h: Holders, waiting: set<Tid>, t: Tid, e: Event) {
    match e
    case Quiet => true
    case GaveUp => true
    case Acquired(Reader) => h.writer.None? && |h.readers| < MAX_READERS
    case Acquired(Writer) => h.writer.None? && h.readers == multiset{}
    case Released(Reader) => t in h.readers
    case Released(Writer) => h.writer == Some(t)
    case Busy(Reader) => h.writer.Some? || (writersFirst && waiting != {})
    case Busy(Writer) => h.writer.Some? || h.readers != multiset{}
    case TooMany => |h.readers| == MAX_READERS
    case WouldDeadlock => h.writer == Some(t)
    case NotOwner => h.writer != Some(t) && t !in h.readers
  }
}

/** The code: one program counter per thread over the lock's shared fields. */
module RwLock {
  import opened Threads
  import opened RwLockSpec

  /** The fields packed into the 32-bit state; RwLockWord relates them to the bits. */
  datatype Word = Word(writer: bool, readers: nat, pendingWriters: bool, pendingReaders: bool) {
    predicate Held() { writer || readers > 0 }
    predicate AnyPending() { pendingWriters || pendingReaders }
    function SetPending(role: Role, b: bool): Word {
      if role.Reader? then this.(pendingReaders := b) else this.(pendingWriters := b)
    }
  }

  /** One counter for readers and one for writers. */
  datatype PerRole = PerRole(rd: nat, wr: nat) {
    function Get(role: Role): nat { if role.Reader? then rd else wr }
    function Set(role: Role, v: nat): PerRole {
      if role.Reader? then this.(rd := v) else this.(wr := v)
    }
  }

  /** tryXXlock, XXlock and timedXXlock. */
  datatype Call = Try | Block | Timed

  datatype Pc =
    | Idle
    // Acquiring. `fast` marks the try that XXlock makes before anything else.
    | Self(role: Role, call: Call)                          // load writer_tid
    | Load(role: Role, call: Call, fast: bool)              // tryXXlock: load state
    | Cas(role: Role, call: Call, fast: bool, seen: Word)   // tryXXlock: weak compare-exchange
    | StoreTid                                              // store writer_tid
    | Recheck(role: Role, call: Call)                       // load state again
    | Enqueue(role: Role, call: Call)                       // pending_lock section before waiting
    | Prepared(role: Role, call: Call, serial: nat, skip: bool)  // futex_wait, unless skip
    | Asleep(role: Role, call: Call)
    | Dequeue(role: Role, timedOut: bool, call: Call)       // pending_lock section after waiting
    // Releasing.
    | ULoad                                                 // load state
    | UTid                                                  // load writer_tid
    | UClear                                                // store 0 in writer_tid
    | UAnd                                                  // fetch_and
    | USub                                                  // fetch_sub
    | UPick                                                 // pending_lock section choosing whom to wake
    | UWakeOne                                              // futex_wake(writer serial, 1)
    | UWakeAll                                              // futex_wake(reader serial, INT_MAX)

  datatype State = State(word: Word, writerTid: int, pending: PerRole, serial: PerRole, pc: map<Tid, Pc>)

  datatype Config = Config(writersFirst: bool, writerTimeouts: bool)

  datatype Action =
    | StartLock(tid: Tid, role: Role, call: Call)
    | StartUnlock(tid: Tid)
    | Run(tid: Tid, spurious: bool, badTime: bool)   // the thread's next atomic operation
    | Wake(tid: Tid, sleeper: Tid)                   // UWakeOne finding a sleeper
    | Interrupt(tid: Tid)                            // a sleeper returns without having been woken
    | Timeout(tid: Tid, role: Role)                  // futex_wait returns ETIMEDOUT

  predicate CanAcquire(cfg: Config, role: Role, w: Word) {
    match role
    case Reader => !(w.writer || (cfg.writersFirst && w.pendingWriters))
    case Writer => !w.Held()
  }

  function Acquire(role: Role, w: Word): Word {
    match role
    case Reader => w.(readers := w.readers + 1)
    case Writer => w.(writer := true)
  }

  function MoveTo(s: State, t: Tid, pc: Pc): State {
    s.(pc := s.pc[t := pc])
  }

  /** tryXXlock's loop test on a freshly read state: where the thread goes and what it returns. */
  function Test(cfg: Config, role: Role, call: Call, fast: bool, badTime: bool, w: Word): (Pc, Event) {
    if !CanAcquire(cfg, role, w) then
      if call.Try? then (Idle, Busy(role))
      else if fast then (Self(role, call), Quiet)
      else if badTime then (Idle, GaveUp)
      else (Recheck(role, call), Quiet)
    else if role.Reader? && w.readers >= MAX_READERS then
      if fast && !call.Try? then (Self(role, call), Quiet) else (Idle, TooMany)
    else (Cas(role, call, fast, w), Quiet)
  }

  predicate Enabled(cfg: Config, s: State, h: Holders, a: Action) {
    && a.tid in s.pc
    && match a
       case StartLock(t, _, _) => s.pc[t].Idle?
       case StartUnlock(t) => s.pc[t].Idle?
       case Run(t, spurious, badTime) =>
         && !s.pc[t].Idle? && !s.pc[t].Asleep?
         && (spurious ==> s.pc[t].Cas?)
         && (badTime ==> (s.pc[t].Load? || s.pc[t].Cas?) && s.pc[t].call.Timed?)
         && (s.pc[t].UWakeOne? ==> forall u | u in s.pc :: !(s.pc[u].Asleep? && s.pc[u].role.Writer?))
         // Unlocking a read-held lock that the caller does not hold is undefined.
         && (s.pc[t].ULoad? && !s.word.writer && s.word.readers > 0 ==> t in h.readers)
       case Wake(t, u) => s.pc[t].UWakeOne? && u in s.pc && s.pc[u].Asleep? && s.pc[u].role.Writer?
       case Interrupt(t) => s.pc[t].Asleep?
       case Timeout(t, role) =>
         && (s.pc[t].Asleep? || (s.pc[t].Prepared? && !s.pc[t].skip))
         && s.pc[t].role == role && s.pc[t].call.Timed?
         && (role.Writer? ==> cfg.writerTimeouts)
  }

  /** futex_wake(reader serial, INT_MAX): every sleeping reader goes on to dequeue itself. */
  function WakeReaders(pc: map<Tid, Pc>): (r: map<Tid, Pc>)
    ensures r.Keys == pc.Keys
  {
    map u | u in pc :: if pc[u].Asleep? && pc[u].role.Reader? then Dequeue(Reader, false, pc[u].call) else pc[u]
  }

  function LeaveQueue(s: State, role: Role): State {
    var n := s.pending.Get(role);
    var n' := if n > 0 then n - 1 else 0xffff_ffff;   // uint32_t decrement
    s.(pending := s.pending.Set(role, n'),
       word := if n' == 0 then s.word.SetPending(role, false) else s.word)
  }

  /** One atomic operation of thread `t`. */
  function Next(cfg: Config, s: State, t: Tid, spurious: bool, badTime: bool): (State, Event)
    requires t in s.pc
  {
    match s.pc[t]
    case Self(role, call) =>
      if s.writerTid == t then (MoveTo(s, t, Idle), WouldDeadlock)
      else (MoveTo(s, t, Load(role, call, false)), Quiet)
    case Load(role, call, fast) =>
      var (pc, e) := Test(cfg, role, call, fast, badTime, s.word);
      (MoveTo(s, t, pc), e)
    case Cas(role, call, fast, seen) =>
      if s.word == seen && !spurious then
        (MoveTo(s.(word := Acquire(role, s.word)), t, if role.Reader? then Idle else StoreTid), Acquired(role))
      else
        var (pc, e) := Test(cfg, role, call, fast, badTime, s.word);
        (MoveTo(s, t, pc), e)
    case StoreTid => (MoveTo(s.(writerTid := t), t, Idle), Quiet)
    case Recheck(role, call) =>
      (MoveTo(s, t, if CanAcquire(cfg, role, s.word) then Load(role, call, false) else Enqueue(role, call)), Quiet)
    case Enqueue(role, call) =>
      (MoveTo(s.(pending := s.pending.Set(role, s.pending.Get(role) + 1), word := s.word.SetPending(role, true)),
              t, Prepared(role, call, s.serial.Get(role), CanAcquire(cfg, role, s.word))), Quiet)
    case Prepared(role, call, serial, skip) =>
      (MoveTo(s, t, if !skip && serial == s.serial.Get(role) then Asleep(role, call)
                    else Dequeue(role, false, call)), Quiet)
    case Dequeue(role, timedOut, call) =>
      (MoveTo(LeaveQueue(s, role), t, if timedOut then Idle else Load(role, call, false)),
       if timedOut then GaveUp else Quiet)
    case ULoad =>
      if s.word.writer then (MoveTo(s, t, UTid), Quiet)
      else if s.word.readers > 0 then (MoveTo(s, t, USub), Quiet)
      else (MoveTo(s, t, Idle), NotOwner)
    case UTid =>
      if s.writerTid == t then (MoveTo(s, t, UClear), Quiet) else (MoveTo(s, t, Idle), NotOwner)
    case UClear => (MoveTo(s.(writerTid := 0), t, UAnd), Quiet)
    case UAnd =>
      (MoveTo(s.(word := s.word.(writer := false)), t, if s.word.AnyPending() then UPick else Idle), Released(Writer))
    case USub =>
      var r := if s.word.readers > 0 then s.word.readers - 1 else 0;
      (MoveTo(s.(word := s.word.(readers := r)), t,
              if s.word.readers == 1 && s.word.AnyPending() then UPick else Idle), Released(Reader))
    case UPick =>
      if s.pending.wr != 0 then
        (MoveTo(s.(serial := s.serial.(wr := s.serial.wr + 1)), t, UWakeOne), Quiet)
      else if s.pending.rd != 0 then
        (MoveTo(s.(serial := s.serial.(rd := s.serial.rd + 1)), t, UWakeAll), Quiet)
      else (MoveTo(s, t, Idle), Quiet)
    case UWakeOne => (MoveTo(s, t, Idle), Quiet)
    case UWakeAll => (s.(pc := WakeReaders(s.pc)[t := Idle]), Quiet)
    case _ => (s, Quiet)
  }

  function Do(cfg: Config, s: State, h: Holders, a: Action): (State, Event)
    requires Enabled(cfg, s, h, a)
  {
    match a
    case StartLock(t, role, call) =>
      (MoveTo(s, t, if call.Timed? then Self(role, call) else Load(role, call, true)), Quiet)
    case StartUnlock(t) => (MoveTo(s, t, ULoad), Quiet)
    case Run(t, spurious, badTime) => Next(cfg, s, t, spurious, badTime)
    case Wake(t, u) => (MoveTo(MoveTo(s, u, Dequeue(Writer, false, s.pc[u].call)), t, Idle), Quiet)
    case Interrupt(t) => (MoveTo(s, t, Dequeue(s.pc[t].role, false, s.pc[t].call)), Quiet)
    case Timeout(t, role) => (MoveTo(s, t, Dequeue(role, true, s.pc[t].call)), Quiet)
  }

  /** pthread_rwlock_init, with every thread outside the lock's functions. */
  ghost predicate Init(s: State) {
    && s.word == Word(false, 0, false, false) && s.writerTid == 0
    && s.pending == PerRole(0, 0) && s.serial == PerRole(0, 0)
    && forall t | t in s.pc :: s.pc[t].Idle?
  }
}
