// bionic/libc/bionic/pthread_once.cpp as a transition system; one step per atomic
// operation, sequentially consistent.
module Once {
  import opened Threads

  const NOT_YET_STARTED := 0
  const UNDERWAY := 1
  const COMPLETE := 2

  datatype Event = Quiet | RoutineStarts | RoutineEnds | Returns

  /** How often init_routine has been entered and left. */
  datatype History = History(started: nat, ended: nat)

  ghost function After(h: History, e: Event): History {
    match e
    case RoutineStarts => h.(started := h.started + 1)
    case RoutineEnds => h.(ended := h.ended + 1)
    case _ => h
  }

  datatype Pc =
    | Idle
    | Load               // load once_control
    | Cas(seen: int)     // seen -> underway, weak
    | Running            // inside init_routine
    | Store              // store complete
    | WakeAll            // futex_wake(INT_MAX)
    | GoSleep(seen: int) // futex_wait(seen)
    | Asleep

  datatype State = State(word: int, pc: map<Tid, Pc>)

  datatype Action = Start(tid: Tid) | Run(tid: Tid, spurious: bool) | Interrupt(tid: Tid)

  predicate Enabled(s: State, a: Action) {
    && a.tid in s.pc
    && match a
       case Start(t) => s.pc[t].Idle?
       case Run(t, spurious) => !s.pc[t].Idle? && !s.pc[t].Asleep? && (spurious ==> s.pc[t].Cas?)
       case Interrupt(t) => s.pc[t].Asleep?
  }

  function MoveTo(s: State, t: Tid, pc: Pc): State {
    s.(pc := s.pc[t := pc])
  }

  /** The head of the loop on a freshly read value. */
  function Decide(word: int): (Pc, Event) {
    if word == COMPLETE then (Idle, Returns) else (Cas(word), Quiet)
  }

  function WakeSleepers(pc: map<Tid, Pc>): (r: map<Tid, Pc>)
    ensures r.Keys == pc.Keys
  {
    map u | u in pc :: if pc[u].Asleep? then Load else pc[u]
  }

  function Next(s: State, t: Tid, spurious: bool): (State, Event)
    requires t in s.pc
  {
    match s.pc[t]
    case Load => var (pc, e) := Decide(s.word); (MoveTo(s, t, pc), e)
    case Cas(seen) =>
      if s.word == seen && !spurious then
        if seen == NOT_YET_STARTED then (MoveTo(s.(word := UNDERWAY), t, Running), RoutineStarts)
        else (MoveTo(s.(word := UNDERWAY), t, GoSleep(seen)), Quiet)
      else var (pc, e) := Decide(s.word); (MoveTo(s, t, pc), e)
    case Running => (MoveTo(s, t, Store), RoutineEnds)
    case Store => (MoveTo(s.(word := COMPLETE), t, WakeAll), Quiet)
    case WakeAll => (s.(pc := WakeSleepers(s.pc)[t := Idle]), Returns)
    case GoSleep(seen) => (MoveTo(s, t, if s.word == seen then Asleep else Load), Quiet)
    case _ => (s, Quiet)
  }

  function Do(s: State, a: Action): (State, Event)
    requires Enabled(s, a)
  {
    match a
    case Start(t) => (MoveTo(s, t, Load), Quiet)
    case Run(t, spurious) => Next(s, t, spurious)
    case Interrupt(t) => (MoveTo(s, t, Load), Quiet)
  }

  // ---------------------------------------------------------------- every run

  datatype World = World(s: State, h: History)

  ghost function Step(w: World, a: Action): World
    requires Enabled(w.s, a)
  {
    var (s', e) := Do(w.s, a);
    World(s', After(w.h, e))
  }

  ghost predicate Init(w: World) {
    w.s.word == NOT_YET_STARTED && w.h == History(0, 0) && forall t | t in w.s.pc :: w.s.pc[t].Idle?
  }

  ghost predicate IsRun(ws: seq<World>, acts: seq<Action>) {
    && |ws| == |acts| + 1 && Init(ws[0])
    && forall i | 0 <= i < |acts| :: Enabled(ws[i].s, acts[i]) && ws[i + 1] == Step(ws[i], acts[i])
  }

  ghost predicate Reachable(w: World) {
    exists ws, acts :: IsRun(ws, acts) && w == ws[|acts|]
  }

  predicate Initialising(pc: Pc) {
    pc.Running? || pc.Store?
  }

  ghost predicate WordOk(w: World) {
    && (w.s.word == NOT_YET_STARTED || w.s.word == UNDERWAY || w.s.word == COMPLETE)
    && w.h.started == (if w.s.word == NOT_YET_STARTED then 0 else 1)
    && (w.s.word == UNDERWAY <==> exists t :: t in w.s.pc && Initialising(w.s.pc[t]))
    && (w.h.ended == if w.s.word == COMPLETE || (exists t :: t in w.s.pc && w.s.pc[t].Store?) then 1 else 0)
  }

  ghost predicate PcsOk(w: World) {
    && (forall t, u | t in w.s.pc && u in w.s.pc && Initialising(w.s.pc[t]) && Initialising(w.s.pc[u]) :: t == u)
    && forall t | t in w.s.pc ::
         && (w.s.pc[t].Cas? ==> w.s.pc[t].seen == NOT_YET_STARTED || w.s.pc[t].seen == UNDERWAY)
         && (w.s.pc[t].GoSleep? ==> w.s.pc[t].seen == UNDERWAY)
         && (w.s.pc[t].WakeAll? ==> w.s.word == COMPLETE)
  }

  ghost predicate SleepersOwed(s: State) {
    (exists t :: t in s.pc && s.pc[t].Asleep?) ==> s.word == UNDERWAY || exists u :: u in s.pc && s.pc[u].WakeAll?
  }

  ghost predicate Inv(w: World) {
    WordOk(w) && PcsOk(w) && SleepersOwed(w.s)
  }

  /** Moves that touch no shared word and leave the initialising thread alone. */
  lemma Moves(w: World, t: Tid, pc: Pc)
    requires WordOk(w) && PcsOk(w) && t in w.s.pc && !Initialising(w.s.pc[t]) && !Initialising(pc)
    requires pc.Cas? ==> pc.seen == NOT_YET_STARTED || pc.seen == UNDERWAY
    requires pc.GoSleep? ==> pc.seen == UNDERWAY
    requires !pc.WakeAll?
    ensures WordOk(w.(s := MoveTo(w.s, t, pc))) && PcsOk(w.(s := MoveTo(w.s, t, pc)))
  {
    var s' := MoveTo(w.s, t, pc);
    assert forall u | u in w.s.pc && Initialising(w.s.pc[u]) :: s'.pc[u] == w.s.pc[u];
  }

  lemma WakesAll(w: World, t: Tid)
    requires WordOk(w) && PcsOk(w) && t in w.s.pc && w.s.pc[t].WakeAll?
    ensures WordOk(w.(s := w.s.(pc := WakeSleepers(w.s.pc)[t := Idle])))
    ensures PcsOk(w.(s := w.s.(pc := WakeSleepers(w.s.pc)[t := Idle])))
  {
    var pc' := WakeSleepers(w.s.pc)[t := Idle];
    assert forall u | u in w.s.pc :: !Initialising(w.s.pc[u]);
    assert forall u | u in pc' :: u in w.s.pc && !Initialising(pc'[u]);
  }

  /** Starting, finishing and publishing the routine. */
  lemma Initialises(w: World, a: Action)
    requires WordOk(w) && PcsOk(w) && Enabled(w.s, a) && a.Run?
    requires Initialising(w.s.pc[a.tid]) || Do(w.s, a).1.RoutineStarts?
    ensures WordOk(Step(w, a)) && PcsOk(Step(w, a))
  {
    var (t, w') := (a.tid, Step(w, a));
    assert forall u | u in w.s.pc && u != t :: w'.s.pc[u] == w.s.pc[u] && !Initialising(w.s.pc[u]);
    assert w'.s.pc[t].Running? || w'.s.pc[t].Store? || w'.s.pc[t].WakeAll?;
    assert t in w'.s.pc;
  }

  lemma SafeStep(w: World, a: Action)
    requires WordOk(w) && PcsOk(w) && Enabled(w.s, a)
    ensures WordOk(Step(w, a)) && PcsOk(Step(w, a))
  {
    var pc := w.s.pc[a.tid];
    if a.Run? && (Initialising(pc) || Do(w.s, a).1.RoutineStarts?) {
      Initialises(w, a);
    } else if a.Run? && pc.WakeAll? {
      WakesAll(w, a.tid);
    } else {
      Moves(w, a.tid, Do(w.s, a).0.pc[a.tid]);
    }
  }

  lemma SleepersKeep(s: State, s': State, t: Tid)
    requires SleepersOwed(s) && t in s.pc && t in s'.pc && s'.pc == s.pc[t := s'.pc[t]] && !s.pc[t].WakeAll?
    requires s.word == UNDERWAY ==> s'.word == UNDERWAY || s'.pc[t].WakeAll?
    requires s'.pc[t].Asleep? ==> s'.word == UNDERWAY
    ensures SleepersOwed(s')
  {
    if s'.word != UNDERWAY && !s'.pc[t].WakeAll? {
      forall u | u in s'.pc && s'.pc[u].Asleep? ensures exists v :: v in s'.pc && s'.pc[v].WakeAll? {
        assert u in s.pc && s.pc[u].Asleep?;
        var v :| v in s.pc && s.pc[v].WakeAll?;
        assert v in s'.pc && s'.pc[v].WakeAll?;
      }
    }
  }

  lemma SleepersStep(w: World, a: Action)
    requires Inv(w) && Enabled(w.s, a)
    ensures SleepersOwed(Step(w, a).s)
  {
    var s' := Step(w, a).s;
    if a.Run? && w.s.pc[a.tid].WakeAll? {
      assert forall u | u in s'.pc :: u in w.s.pc && !s'.pc[u].Asleep?;
    } else {
      SleepersKeep(w.s, s', a.tid);
    }
  }

  lemma {:induction false} RunKeepsInv(ws: seq<World>, acts: seq<Action>, n: nat)
    requires IsRun(ws, acts) && n <= |acts|
    ensures Inv(ws[n])
  {
    if n > 0 {
      RunKeepsInv(ws, acts, n - 1);
      SafeStep(ws[n - 1], acts[n - 1]);
      SleepersStep(ws[n - 1], acts[n - 1]);
    }
  }

  lemma ReachableInv(w: World)
    requires Reachable(w)
    ensures Inv(w)
  {
    var ws, acts :| IsRun(ws, acts) && w == ws[|acts|];
    RunKeepsInv(ws, acts, |acts|);
  }

  /** The routine runs at most once, and pthread_once returns only after it has ended. */
  lemma ExactlyOnce(w: World, a: Action)
    requires Reachable(w) && Enabled(w.s, a)
    ensures w.h.ended <= w.h.started <= 1
    ensures Do(w.s, a).1.Returns? ==> w.h == History(1, 1)
    ensures Do(w.s, a).1.RoutineStarts? ==> w.h == History(0, 0)
  {
    ReachableInv(w);
  }

  /** Whoever sleeps is waiting for a routine that is still running, or is about to be woken. */
  lemma SleeperIsOwed(w: World, t: Tid)
    requires Reachable(w) && t in w.s.pc && w.s.pc[t].Asleep?
    ensures exists u :: u in w.s.pc && (Initialising(w.s.pc[u]) || w.s.pc[u].WakeAll?)
  {
    ReachableInv(w);
  }

  /** A thread is in pthread_once from its call until it is told to return, and nobody else ends its call. */
  lemma ReturnsEndCalls(w: World, a: Action, u: Tid)
    requires Enabled(w.s, a) && u in w.s.pc
    ensures u in Step(w, a).s.pc
    ensures !w.s.pc[u].Idle? && Step(w, a).s.pc[u].Idle? <==> u == a.tid && Do(w.s, a).1.Returns?
    ensures w.s.pc[u].Idle? && !Step(w, a).s.pc[u].Idle? <==> a == Start(u)
  {
  }

  /** Thread `t` runs on, `steps` steps at most, until something happens that is not Quiet or it cannot go on. */
  ghost function Alone(w: World, t: Tid, steps: nat): (World, Event)
    decreases steps
  {
    var a := Run(t, false);
    if steps == 0 || !Enabled(w.s, a) then (w, Quiet)
    else
      var e := Do(w.s, a).1;
      if e.Quiet? then Alone(Step(w, a), t, steps - 1) else (Step(w, a), e)
  }

  /** The loop from a look at the word, which is also what a woken waiter does. */
  lemma WokenAlone(w: World, t: Tid)
    requires WordOk(w) && t in w.s.pc && w.s.pc[t] == Load
    ensures var (w', e) := Alone(w, t, 3);
      if w.h.started == 0 then e == RoutineStarts
      else if w.s.word == COMPLETE then e == Returns
      else e == Quiet && t in w'.s.pc && w'.s.pc[t] == Asleep
  {
    var a := Run(t, false);
    if w.s.word != COMPLETE {
      var w1 := Step(w, a);
      assert w1.s.pc[t] == Cas(w.s.word) && w1.s.word == w.s.word && Enabled(w1.s, a);
      if w.s.word == NOT_YET_STARTED {
        assert Alone(w1, t, 2).1 == RoutineStarts;
      } else {
        var w2 := Step(w1, a);
        assert w2.s.pc[t] == GoSleep(UNDERWAY) && w2.s.word == UNDERWAY && Enabled(w2.s, a);
        var w3 := Step(w2, a);
        assert Alone(w2, t, 1) == Alone(w3, t, 0) == (w3, Quiet);
      }
    }
  }

  /** Undisturbed, the first call runs the routine, a call during it sleeps, and a call after it returns. */
  lemma CallAlone(w: World, t: Tid)
    requires Reachable(w) && t in w.s.pc && w.s.pc[t].Idle?
    ensures var (w', e) := Alone(Step(w, Start(t)), t, 3);
      if w.h.started == 0 then e == RoutineStarts
      else if w.s.word == COMPLETE then e == Returns
      else e == Quiet && t in w'.s.pc && w'.s.pc[t] == Asleep
  {
    ReachableInv(w);
    SafeStep(w, Start(t));
    WokenAlone(Step(w, Start(t)), t);
  }

  /** Undisturbed, the thread that has run the routine marks it as done, leaves nobody asleep and returns. */
  lemma RoutineAlone(w: World, t: Tid)
    requires t in w.s.pc && w.s.pc[t].Running?
    ensures var (w1, e1) := Alone(w, t, 1);
      && e1 == RoutineEnds
      && var (w2, e2) := Alone(w1, t, 2);
         e2 == Returns && w2.s.word == COMPLETE && forall u | u in w2.s.pc :: !w2.s.pc[u].Asleep?
  {
    var a := Run(t, false);
    var w1 := Step(w, a);
    assert w1.s.pc[t] == Store && Enabled(w1.s, a);
    var w2 := Step(w1, a);
    assert w2.s.pc[t] == WakeAll && Enabled(w2.s, a);
    assert Alone(w2, t, 1) == (Step(w2, a), Returns);
  }
}
