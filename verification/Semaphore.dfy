// bionic/libc/bionic/semaphore.cpp: POSIX semaphores over one 32-bit word as a
// transition system; one step per atomic operation, sequentially consistent.

/** What a counting semaphore owes its callers. */
module SemaphoreSpec {
  import opened Threads

  const SEM_VALUE_MAX: nat := 0x3fff_ffff

  datatype Event =
    | Quiet
    | Waited              // sem_wait and friends return 0
    | Posted              // sem_post returns 0
    | WouldBlock          // EAGAIN from sem_trywait
    | Overflow            // EOVERFLOW from sem_post
    | Value(n: int)       // sem_getvalue
    | GaveUp              // EINTR, ETIMEDOUT, or EINVAL for a bad timespec

  /** The units available: the initial value, plus posts, minus waits. */
  ghost function After(units: nat, e: Event): nat {
    match e
    case Waited => if units > 0 then units - 1 else 0
    case Posted => units + 1
    case _ => units
  }

  ghost predicate Legal(units: nat, e: Event) {
    match e
    case Waited => units > 0
    case Posted => units < SEM_VALUE_MAX
    case WouldBlock => units == 0
    case Overflow => units == SEM_VALUE_MAX
    case Value(n) => n == units
    case _ => true
  }
}

module Semaphore {
  import opened Threads
  import opened SemaphoreSpec

  datatype Call = TryWait | Wait | TimedWait

  datatype Pc =
    | Idle
    | TryLoad(call: Call)             // __sem_trydec: load
    | TryCas(call: Call, seen: int)   // __sem_trydec: weak compare-exchange
    | DecLoad(call: Call)             // __sem_dec: load
    | DecCas(call: Call, seen: int)   // __sem_dec: weak compare-exchange
    | GoSleep(call: Call)             // futex_wait(-1)
    | Asleep(call: Call)
    | PostLoad                        // __sem_inc: load
    | PostCas(seen: int)              // __sem_inc: weak compare-exchange
    | WakeAll                         // futex_wake(INT_MAX)
    | ReadValue                       // sem_getvalue: load

  /** `value` is the signed 31-bit counter; SemaphoreWord relates it to the word. */
  datatype State = State(value: int, pc: map<Tid, Pc>)

  datatype Action =
    | StartWait(tid: Tid, call: Call)
    | StartPost(tid: Tid)
    | StartRead(tid: Tid)
    | Run(tid: Tid, spurious: bool, badTime: bool)
    | Resume(tid: Tid)                // a sleeper is told 0 without having been woken
    | Abandon(tid: Tid)               // futex_wait returns EINTR or ETIMEDOUT and the caller gives up

  predicate Enabled(s: State, a: Action) {
    && a.tid in s.pc
    && match a
       case Run(t, spurious, badTime) =>
         && !s.pc[t].Idle? && !s.pc[t].Asleep?
         && (spurious ==> s.pc[t].TryCas? || s.pc[t].DecCas? || s.pc[t].PostCas?)
         && (badTime ==> (s.pc[t].TryLoad? || s.pc[t].TryCas?) && s.pc[t].call.TimedWait?)
       case Resume(t) => s.pc[t].Asleep?
       case Abandon(t) => s.pc[t].Asleep? || (s.pc[t].GoSleep? && s.pc[t].call.TimedWait?)
       case _ => s.pc[a.tid].Idle?
  }

  function MoveTo(s: State, t: Tid, pc: Pc): State {
    s.(pc := s.pc[t := pc])
  }

  /** The loop tests of __sem_trydec, __sem_dec and __sem_inc on a freshly read value. */
  function TryTest(call: Call, v: int, badTime: bool): (Pc, Event) {
    if v > 0 then (TryCas(call, v), Quiet)
    else if call.TryWait? then (Idle, WouldBlock)
    else if badTime then (Idle, GaveUp)
    else (DecLoad(call), Quiet)
  }

  function DecTest(call: Call, v: int): Pc {
    if v < 0 then GoSleep(call) else DecCas(call, v)
  }

  function PostTest(v: int): (Pc, Event) {
    if v == SEM_VALUE_MAX then (Idle, Overflow) else (PostCas(v), Quiet)
  }

  function WakeSleepers(pc: map<Tid, Pc>): (r: map<Tid, Pc>)
    ensures r.Keys == pc.Keys
  {
    map u | u in pc :: if pc[u].Asleep? then DecLoad(pc[u].call) else pc[u]
  }

  function Next(s: State, t: Tid, spurious: bool, badTime: bool): (State, Event)
    requires t in s.pc
  {
    match s.pc[t]
    case TryLoad(call) => var (pc, e) := TryTest(call, s.value, badTime); (MoveTo(s, t, pc), e)
    case TryCas(call, seen) =>
      if s.value == seen && !spurious then (MoveTo(s.(value := seen - 1), t, Idle), Waited)
      else var (pc, e) := TryTest(call, s.value, badTime); (MoveTo(s, t, pc), e)
    case DecLoad(call) => (MoveTo(s, t, DecTest(call, s.value)), Quiet)
    case DecCas(call, seen) =>
      if s.value == seen && !spurious then
        if seen > 0 then (MoveTo(s.(value := seen - 1), t, Idle), Waited)
        else (MoveTo(s.(value := seen - 1), t, GoSleep(call)), Quiet)
      else (MoveTo(s, t, DecTest(call, s.value)), Quiet)
    case GoSleep(call) => (MoveTo(s, t, if s.value == -1 then Asleep(call) else DecLoad(call)), Quiet)
    case PostLoad => var (pc, e) := PostTest(s.value); (MoveTo(s, t, pc), e)
    case PostCas(seen) =>
      if s.value == seen && !spurious then
        (MoveTo(s.(value := if seen < 0 then 1 else seen + 1), t, if seen < 0 then WakeAll else Idle), Posted)
      else var (pc, e) := PostTest(s.value); (MoveTo(s, t, pc), e)
    case WakeAll => (s.(pc := WakeSleepers(s.pc)[t := Idle]), Quiet)
    case ReadValue => (MoveTo(s, t, Idle), Value(if s.value < 0 then 0 else s.value))
    case _ => (s, Quiet)
  }

  function Do(s: State, a: Action): (State, Event)
    requires Enabled(s, a)
  {
    match a
    case StartWait(t, call) => (MoveTo(s, t, if call.Wait? then DecLoad(call) else TryLoad(call)), Quiet)
    case StartPost(t) => (MoveTo(s, t, PostLoad), Quiet)
    case StartRead(t) => (MoveTo(s, t, ReadValue), Quiet)
    case Run(t, spurious, badTime) => Next(s, t, spurious, badTime)
    case Resume(t) => (MoveTo(s, t, DecLoad(s.pc[t].call)), Quiet)
    case Abandon(t) => (MoveTo(s, t, Idle), GaveUp)
  }

  /** sem_init, which refuses values above SEM_VALUE_MAX. */
  ghost predicate Init(s: State, value: nat) {
    value <= SEM_VALUE_MAX && s.value == value && forall t | t in s.pc :: s.pc[t].Idle?
  }
}

/** Conservation and wakeup for every run of a semaphore, timeouts and signals included. */
module SemaphoreProof {
  import opened Threads
  import opened SemaphoreSpec
  import opened Semaphore

  datatype World = World(s: State, units: nat)

  ghost function Step(w: World, a: Action): World
    requires Enabled(w.s, a)
  {
    var (s', e) := Do(w.s, a);
    World(s', After(w.units, e))
  }

  ghost predicate IsRun(ws: seq<World>, acts: seq<Action>) {
    && |ws| == |acts| + 1 && Init(ws[0].s, ws[0].units)
    && forall i | 0 <= i < |acts| :: Enabled(ws[i].s, acts[i]) && ws[i + 1] == Step(ws[i], acts[i])
  }

  ghost predicate Reachable(w: World) {
    exists ws, acts :: IsRun(ws, acts) && w == ws[|acts|]
  }

  function Positive(v: int): nat { if v < 0 then 0 else v }

  ghost predicate ValueOk(w: World) {
    -1 <= w.s.value <= SEM_VALUE_MAX && Positive(w.s.value) == w.units
  }

  ghost predicate PcsOk(w: World) {
    forall t | t in w.s.pc ::
      var pc := w.s.pc[t];
      && (pc.TryCas? ==> 0 < pc.seen <= SEM_VALUE_MAX)
      && (pc.DecCas? ==> 0 <= pc.seen <= SEM_VALUE_MAX)
      && (pc.PostCas? ==> -1 <= pc.seen < SEM_VALUE_MAX)
  }

  /** A sleeper exists only while the value says so or a poster still has to wake everybody. */
  ghost predicate SleepersOwed(s: State) {
    (exists t :: t in s.pc && s.pc[t].Asleep?) ==> s.value == -1 || exists u :: u in s.pc && s.pc[u].WakeAll?
  }

  ghost predicate Inv(w: World) {
    ValueOk(w) && PcsOk(w) && SleepersOwed(w.s)
  }

  predicate Waits(pc: Pc) { pc.TryLoad? || pc.TryCas? || pc.DecLoad? || pc.DecCas? }

  lemma WaitStep(w: World, a: Action)
    requires ValueOk(w) && PcsOk(w) && Enabled(w.s, a) && Waits(w.s.pc[a.tid])
    ensures Legal(w.units, Do(w.s, a).1) && ValueOk(Step(w, a)) && PcsOk(Step(w, a))
  {
    assert a.tid in w.s.pc;
  }

  lemma OtherStep(w: World, a: Action)
    requires ValueOk(w) && PcsOk(w) && Enabled(w.s, a) && !Waits(w.s.pc[a.tid])
    ensures Legal(w.units, Do(w.s, a).1) && ValueOk(Step(w, a)) && PcsOk(Step(w, a))
  {
    assert a.tid in w.s.pc;
  }

  lemma ValueStep(w: World, a: Action)
    requires ValueOk(w) && PcsOk(w) && Enabled(w.s, a)
    ensures Legal(w.units, Do(w.s, a).1) && ValueOk(Step(w, a)) && PcsOk(Step(w, a))
  {
    if Waits(w.s.pc[a.tid]) { WaitStep(w, a); } else { OtherStep(w, a); }
  }

  lemma SleepersKeep(s: State, s': State, t: Tid)
    requires SleepersOwed(s) && t in s.pc && t in s'.pc && s'.pc == s.pc[t := s'.pc[t]]
    requires !s.pc[t].WakeAll? && (s.value == -1 ==> s'.value == -1 || s'.pc[t].WakeAll?)
    requires s'.pc[t].Asleep? ==> s'.value == -1
    ensures SleepersOwed(s')
  {
    forall u | u in s'.pc && s'.pc[u].Asleep? ensures s'.value == -1 || exists v :: v in s'.pc && s'.pc[v].WakeAll? {
      if u != t && s'.value != -1 && !s'.pc[t].WakeAll? {
        assert u in s.pc && s.pc[u].Asleep?;
        var v :| v in s.pc && s.pc[v].WakeAll?;
        assert v in s'.pc && s'.pc[v].WakeAll?;
      }
    }
  }

  lemma SleepersStep(w: World, a: Action)
    requires Inv(w) && Enabled(w.s, a)
    ensures SleepersOwed(Step(w, a).s)
  {
    var s' := Step(w, a).s;
    if a.Run? && w.s.pc[a.tid].WakeAll? {
      assert forall u | u in s'.pc :: u in w.s.pc && !s'.pc[u].Asleep?;
    } else {
      SleepersKeep(w.s, s', a.tid);
    }
  }

  lemma {:induction false} RunKeepsInv(ws: seq<World>, acts: seq<Action>, n: nat)
    requires IsRun(ws, acts) && n <= |acts|
    ensures Inv(ws[n])
  {
    if n > 0 {
      RunKeepsInv(ws, acts, n - 1);
      ValueStep(ws[n - 1], acts[n - 1]);
      SleepersStep(ws[n - 1], acts[n - 1]);
    }
  }

  lemma ReachableInv(w: World)
    requires Reachable(w)
    ensures Inv(w)
  {
    var ws, acts :| IsRun(ws, acts) && w == ws[|acts|];
    RunKeepsInv(ws, acts, |acts|);
  }

  ghost function Events(ws: seq<World>, acts: seq<Action>): seq<Event>
    requires IsRun(ws, acts)
  {
    seq(|acts|, i requires 0 <= i < |acts| => Do(ws[i].s, acts[i]).1)
  }

  ghost function CountOf(es: seq<Event>, e: Event): nat {
    multiset(es)[e]
  }

  lemma {:induction false} UnitsCount(ws: seq<World>, acts: seq<Action>, n: nat)
    requires IsRun(ws, acts) && n <= |acts|
    ensures ws[n].units + CountOf(Events(ws, acts)[..n], Waited) == ws[0].units + CountOf(Events(ws, acts)[..n], Posted)
  {
    var es := Events(ws, acts);
    if n > 0 {
      UnitsCount(ws, acts, n - 1);
      assert es[..n] == es[..n - 1] + [es[n - 1]];
      RunKeepsInv(ws, acts, n - 1);
      ValueStep(ws[n - 1], acts[n - 1]);
    }
  }

  /**
   * Conservation: at every point of every run the positive part of the value is the initial
   * value plus the successful posts minus the successful waits, and the value stays in range.
   */
  lemma Conservation(ws: seq<World>, acts: seq<Action>, n: nat)
    requires IsRun(ws, acts) && n <= |acts|
    ensures -1 <= ws[n].s.value <= SEM_VALUE_MAX
    ensures Positive(ws[n].s.value)
         == ws[0].s.value + CountOf(Events(ws, acts)[..n], Posted) - CountOf(Events(ws, acts)[..n], Waited)
  {
    RunKeepsInv(ws, acts, n);
    UnitsCount(ws, acts, n);
  }

  /** Waits succeed only on an available unit; the other answers are true too. */
  lemma AnswersAreTrue(w: World, a: Action)
    requires Reachable(w) && Enabled(w.s, a)
    ensures Legal(w.units, Do(w.s, a).1)
  {
    ReachableInv(w);
    ValueStep(w, a);
  }

  lemma SleeperIsOwed(w: World, t: Tid)
    requires Reachable(w) && t in w.s.pc && w.s.pc[t].Asleep?
    ensures w.s.value == -1 || exists u :: u in w.s.pc && w.s.pc[u].WakeAll?
  {
    ReachableInv(w);
  }

  /** Nobody sleeps while units are available and everybody else has returned. */
  lemma NobodyStranded(w: World)
    requires Reachable(w) && w.units > 0
    requires forall u | u in w.s.pc :: w.s.pc[u].Idle? || w.s.pc[u].Asleep?
    ensures forall u | u in w.s.pc :: w.s.pc[u].Idle?
  {
    ReachableInv(w);
  }
}

/** The 32-bit semaphore word: 31-bit signed value above the process-shared bit. */
module SemaphoreWord {
  import opened SemaphoreSpec

  type UInt32 = x: int | 0 <= x < 0x1_0000_0000

  /** static_cast<int>(x) >> 1. */
  function ToValue(x: UInt32): int {
    (if x >= 0x8000_0000 then x - 0x1_0000_0000 else x) / 2
  }

  /** (v << 1) & SEMCOUNT_VALUE_MASK, in unsigned arithmetic. */
  function FromValue(v: int): UInt32 { (2 * v) % 0x1_0000_0000 }

  function Shared(x: UInt32): UInt32 { x % 2 }

  /** SEMCOUNT_DECREMENT and SEMCOUNT_INCREMENT, then | shared. */
  function Decremented(x: UInt32): UInt32 { var y := (x - 2) % 0x1_0000_0000; y - y % 2 + Shared(x) }
  function Incremented(x: UInt32): UInt32 { var y := (x + 2) % 0x1_0000_0000; y - y % 2 + Shared(x) }

  ghost function Encode(v: int, shared: bool): UInt32
    requires -1 <= v <= SEM_VALUE_MAX
  {
    FromValue(v) + (if shared then 1 else 0)
  }

  /** The word holds the value and the flag, and -1 shows up as the pattern futex_wait compares with. */
  lemma WordHoldsValue(v: int, shared: bool)
    requires -1 <= v <= SEM_VALUE_MAX
    ensures ToValue(Encode(v, shared)) == v
    ensures Shared(Encode(v, shared)) == if shared then 1 else 0
    ensures Encode(-1, shared) == 0xffff_fffe + Shared(Encode(v, shared))
  {
    FromValueIs(v);
    FromValueIs(-1);
  }

  lemma FromValueIs(v: int)
    requires -1 <= v <= SEM_VALUE_MAX
    ensures FromValue(v) == if v < 0 then 0xffff_fffe else 2 * v
  {
  }

  /** Taking one off the word takes one off the value and keeps the flag, including 0 to -1. */
  lemma WordStepsDown(v: int, shared: bool)
    requires 0 <= v <= SEM_VALUE_MAX
    ensures Decremented(Encode(v, shared)) == Encode(v - 1, shared)
  {
    FromValueIs(v);
    FromValueIs(v - 1);
  }

  /** Adding one to the word adds one to the value and keeps the flag; -1 is replaced by 1. */
  lemma WordStepsUp(v: int, shared: bool)
    requires -1 <= v < SEM_VALUE_MAX
    ensures v >= 0 ==> Incremented(Encode(v, shared)) == Encode(v + 1, shared)
    ensures FromValue(1) + Shared(Encode(v, shared)) == Encode(1, shared)
  {
    FromValueIs(v);
    FromValueIs(v + 1);
    FromValueIs(1);
  }
}
