/** Every answer of the key functions answers the call that was made, and undisturbed calls are answered as due. */
module KeysCalls {
  import opened Common
  import opened Threads
  import opened Calls
  import opened KeysSpec
  import opened Keys
  import opened KeysProof

  // ---------------------------------------------------------------- the calls of a run

  datatype Request = Create(destructor: int) | Delete(key: int) | Get(key: int) | Set(key: int, value: int)

  type Visits = map<Tid, Visit<Request>>

  function Begins(a: Action): Option<Request> {
    match a
    case StartCreate(_, d) => Some(Create(d))
    case StartDelete(_, key) => Some(Delete(key))
    case StartGet(_, key) => Some(Get(key))
    case StartSet(_, key, v) => Some(Set(key, v))
    case _ => None
  }

  /** An exiting thread's calls of destructors answer nobody. */
  predicate IsAnswer(e: Event) {
    !e.Quiet? && !e.Destroying?
  }

  function Told(v: Visit<Request>, a: Action, e: Event, left: bool): Visit<Request> {
    Turn(v, Begins(a), false, IsAnswer(e), left)
  }

  lemma MovesItself(w: World, a: Action)
    requires Enabled(w.s, a)
    ensures var s' := Step(w, a).s; a.tid in s'.threads && s'.threads == w.s.threads[a.tid := s'.threads[a.tid]]
  {
    assert w.s.threads == w.s.threads[a.tid := w.s.threads[a.tid]];
  }

  ghost function NextCalls(w: World, a: Action, calls: Visits): (r: Visits)
    requires Enabled(w.s, a) && calls.Keys == w.s.threads.Keys
    ensures r.Keys == Step(w, a).s.threads.Keys
  {
    MovesItself(w, a);
    var (s', e) := Do(w.s, a);
    calls[a.tid := Told(calls[a.tid], a, e, s'.threads[a.tid].op.Idle?)]
  }

  /** Which call each thread is in after `n` steps. */
  ghost function CallsAt(ws: seq<World>, acts: seq<Action>, n: nat): (r: Visits)
    requires IsRun(ws, acts) && n <= |acts|
    ensures r.Keys == ws[n].s.threads.Keys
  {
    if n == 0 then map t | t in ws[0].s.threads :: Outside
    else
      assert StepAt(ws, acts, n - 1);
      NextCalls(ws[n - 1], acts[n - 1], CallsAt(ws, acts, n - 1))
  }

  /** The answers that the key functions can give; a handle is the integer that the caller passed. */
  predicate Fits(q: Request, e: Event) {
    match e
    case Created(_, d) => q == Create(d)
    case NoSlot => q.Create?
    case Deleted(k) => q == Delete(HandleOf(k.slot))
    case Gone(k) => q == Delete(HandleOf(k.slot))
    case Stored(k, v) => q == Set(HandleOf(k.slot), v)
    case Got(k, _) => q == Get(HandleOf(k.slot))
    case Unused(slot) => !q.Create? && q.key == HandleOf(slot)
    case NotAKey(handle) => !q.Create? && q.key == handle
    case _ => true
  }

  // ---------------------------------------------------------------- invariant

  predicate Serves(op: Op, v: Visit<Request>) {
    match op
    case Idle => v.Outside?
    case CreateLoad(_, d) => v == Asked(Create(d), false)
    case CreateCas(_, d, _) => v == Asked(Create(d), false)
    case CreateStore(_, d) => v == Answered(Create(d))
    case DeleteLoad(i) => v == Asked(Delete(HandleOf(i)), false)
    case DeleteCas(i, _) => v == Asked(Delete(HandleOf(i)), false)
    case GetLoad(i) => v == Asked(Get(HandleOf(i)), false)
    case SetLoad(i, x) => v == Asked(Set(HandleOf(i), x), false)
  }

  ghost predicate AllServe(s: State, calls: Visits) {
    && calls.Keys == s.threads.Keys
    && forall t {:trigger Serves(s.threads[t].op, calls[t])} | t in s.threads :: Serves(s.threads[t].op, calls[t])
  }

  /** What the step by `a` may tell a thread that is in call `v`; `left` if the thread is outside afterwards. */
  predicate Proper(v: Visit<Request>, a: Action, e: Event, left: bool) {
    // A call starts outside the functions, and only an integer that is no key is refused at once.
    && (Begins(a).Some? ==> v.Outside? && if left then e.NotAKey? && Fits(Begins(a).value, e) else e.Quiet?)
    // Any other answer goes to a call that has none yet, and is one of that call's answers.
    && (Begins(a).None? && IsAnswer(e) ==> v.Asked? && Fits(v.call, e))
    // A function returns only when it has answered.
    && (Begins(a).None? && left ==> v.Outside? || v.Answered? || IsAnswer(e))
  }

  ghost predicate CallsKept(w: World, a: Action, calls: Visits)
    requires Enabled(w.s, a) && calls.Keys == w.s.threads.Keys
  {
    MovesItself(w, a);
    var (s', e) := Do(w.s, a);
    && Proper(calls[a.tid], a, e, s'.threads[a.tid].op.Idle?)
    // Nobody but the thread that takes the step starts or finishes a call.
    && forall u | u in w.s.threads && u != a.tid :: s'.threads[u].op.Idle? <==> w.s.threads[u].op.Idle?
  }

  lemma MoverServes(s: State, a: Action, v: Visit<Request>)
    requires Enabled(s, a) && Serves(s.threads[a.tid].op, v)
    ensures var (s', e) := Do(s, a);
            && a.tid in s'.threads && Proper(v, a, e, s'.threads[a.tid].op.Idle?)
            && Serves(s'.threads[a.tid].op, Told(v, a, e, s'.threads[a.tid].op.Idle?))
  {
  }

  lemma StepServes(w: World, a: Action, calls: Visits)
    requires Enabled(w.s, a) && AllServe(w.s, calls)
    ensures CallsKept(w, a, calls) && AllServe(Step(w, a).s, NextCalls(w, a, calls))
  {
    MovesItself(w, a);
    var (s', calls') := (Step(w, a).s, NextCalls(w, a, calls));
    assert Serves(w.s.threads[a.tid].op, calls[a.tid]);
    MoverServes(w.s, a, calls[a.tid]);
    forall u | u in s'.threads ensures Serves(s'.threads[u].op, calls'[u]) {
      if u != a.tid { assert Serves(w.s.threads[u].op, calls[u]); }
    }
  }

  lemma {:induction false} RunServesAt(ws: seq<World>, acts: seq<Action>, n: nat)
    requires IsRun(ws, acts) && n <= |acts|
    ensures AllServe(ws[n].s, CallsAt(ws, acts, n))
  {
    if n > 0 {
      RunServesAt(ws, acts, n - 1);
      assert StepAt(ws, acts, n - 1);
      StepServes(ws[n - 1], acts[n - 1], CallsAt(ws, acts, n - 1));
    }
  }

  /** In every run each call gets one answer, about its own arguments, before its function returns. */
  lemma EveryCallIsAnswered(ws: seq<World>, acts: seq<Action>, n: nat)
    requires IsRun(ws, acts) && n < |acts|
    ensures StepAt(ws, acts, n) && CallsKept(ws[n], acts[n], CallsAt(ws, acts, n))
  {
    assert StepAt(ws, acts, n);
    RunServesAt(ws, acts, n);
    StepServes(ws[n], acts[n], CallsAt(ws, acts, n));
  }

  // ---------------------------------------------------------------- the search for a slot

  /** The slot was in use at some moment after step `m` and up to state `n`. */
  ghost predicate SeenInUse(ws: seq<World>, m: nat, n: nat, slot: nat)
    requires n < |ws|
  {
    exists j: nat :: m < j <= n && slot < |ws[j].s.seqs| && InUse(ws[j].s.seqs[slot])
  }

  /** The thread's last call, made at step `m`, is pthread_key_create, and the slots below were in use during it. */
  ghost predicate Searched(ws: seq<World>, acts: seq<Action>, m: nat, n: nat, t: Tid, d: int, below: nat)
    requires n <= |acts| && |ws| == |acts| + 1
  {
    && m < n && acts[m] == StartCreate(t, d)
    && (forall j: nat | m < j < n && acts[j].tid == t :: Begins(acts[j]).None?)
    && forall i: nat {:trigger SeenInUse(ws, m, n, i)} | i < below :: SeenInUse(ws, m, n, i)
  }

  lemma SeenLater(ws: seq<World>, m: nat, n: nat, n': nat, slot: nat)
    requires n <= n' < |ws| && SeenInUse(ws, m, n, slot)
    ensures SeenInUse(ws, m, n', slot)
  {
    var j: nat :| m < j <= n && slot < |ws[j].s.seqs| && InUse(ws[j].s.seqs[slot]);
  }

  lemma SearchedLater(ws: seq<World>, acts: seq<Action>, m: nat, n: nat, t: Tid, d: int, below: nat)
    requires n < |acts| && |ws| == |acts| + 1 && Searched(ws, acts, m, n, t, d, below)
    requires acts[n].tid == t ==> Begins(acts[n]).None?
    ensures Searched(ws, acts, m, n + 1, t, d, below)
  {
    var n' := n + 1;
    forall i: nat | i < below ensures SeenInUse(ws, m, n', i) {
      assert SeenInUse(ws, m, n, i);
      SeenLater(ws, m, n, n', i);
    }
  }

  /** How a search goes on to `op'`. */
  predicate SearchesOn(s: State, op: Op, op': Op) {
    && (op.CreateLoad? || op.CreateCas?) && (op'.CreateLoad? || op'.CreateCas?) && op.destructor == op'.destructor
    && (|| op.slot == op'.slot
        || (op.slot + 1 == op'.slot && op.slot < |s.seqs| && InUse(s.seqs[op.slot])))
  }

  lemma SearchRuns(s: State, t: Tid, spurious: bool)
    requires Shaped(s) && t in s.threads && !s.threads[t].op.Idle?
    ensures var op' := NextOp(s, t, spurious).0.threads[t].op;
            op'.CreateLoad? || op'.CreateCas? ==> SearchesOn(s, s.threads[t].op, op')
  {
  }

  /** How one step changes a search. */
  lemma SearchStep(w: World, a: Action, t: Tid)
    requires Enabled(w.s, a) && t in w.s.threads
    ensures var (op, op') := (w.s.threads[t].op, Step(w, a).s.threads[t].op);
      op'.CreateLoad? || op'.CreateCas? ==>
        || (a.tid != t && op == op')
        || (a == StartCreate(t, op'.destructor) && op'.slot == 0)
        || (a.RunOp? && a.tid == t && SearchesOn(w.s, op, op'))
  {
    MovesItself(w, a);
    if a.tid == t && a.RunOp? { SearchRuns(w.s, t, a.spurious); }
  }

  lemma {:induction false} SearchSoFar(ws: seq<World>, acts: seq<Action>, n: nat, t: Tid) returns (m: nat)
    requires IsRun(ws, acts) && n <= |acts| && t in ws[n].s.threads
    requires ws[n].s.threads[t].op.CreateLoad? || ws[n].s.threads[t].op.CreateCas?
    ensures var op := ws[n].s.threads[t].op; Searched(ws, acts, m, n, t, op.destructor, op.slot)
  {
    var (w, a, op') := (ws[n - 1], acts[n - 1], ws[n].s.threads[t].op);
    assert StepAt(ws, acts, n - 1);
    MovesItself(w, a);
    SearchStep(w, a, t);
    var op := w.s.threads[t].op;
    if a.StartCreate? && a.tid == t {
      m := n - 1;
    } else {
      m := SearchSoFar(ws, acts, n - 1, t);
      SearchedLater(ws, acts, m, n - 1, t, op.destructor, op.slot);
      if op.slot + 1 == op'.slot {
        assert SeenInUse(ws, m, n - 1, op.slot);
        SeenLater(ws, m, n - 1, n, op.slot);
      }
    }
  }

  /**
   * pthread_key_create passes over a slot only if it was in use during the call, so it takes
   * the first slot that was not, and fails only if every slot was.
   */
  lemma PassedOverWereInUse(ws: seq<World>, acts: seq<Action>, n: nat, t: Tid, e: Event) returns (m: nat, d: int)
    requires IsRun(ws, acts) && n < |acts| && t == acts[n].tid && e == EventAt(ws, acts, n)
    requires e.Created? || e.NoSlot?
    ensures Searched(ws, acts, m, n, t, d, if e.Created? then e.key.slot else KEY_COUNT)
    ensures e.Created? ==> d == e.destructor
  {
    assert StepAt(ws, acts, n);
    var op := ws[n].s.threads[t].op;
    m := SearchSoFar(ws, acts, n, t);
    d := op.destructor;
    if e.NoSlot? {
      assert SeenInUse(ws, m, n, op.slot);
    }
  }

  // ---------------------------------------------------------------- how often a call looks

  /** Between steps `j` and `n` thread `t` does nothing. */
  ghost predicate Rests(acts: seq<Action>, t: Tid, j: nat, n: nat)
    requires n <= |acts|
  {
    forall i: nat | j < i < n :: acts[i].tid != t
  }

  /** The last step of a thread that is in a call. */
  lemma {:induction false} LastTurn(ws: seq<World>, acts: seq<Action>, n: nat, t: Tid) returns (j: nat)
    requires IsRun(ws, acts) && n <= |acts| && t in ws[n].s.threads && !ws[n].s.threads[t].op.Idle?
    ensures j < n && acts[j].tid == t && Rests(acts, t, j, n)
    ensures t in ws[j + 1].s.threads && ws[j + 1].s.threads[t] == ws[n].s.threads[t]
  {
    j := n - 1;
    if acts[j].tid != t {
      assert StepAt(ws, acts, j);
      MovesItself(ws[j], acts[j]);
      j := LastTurn(ws, acts, n - 1, t);
    }
  }

  lemma RunLeadsTo(s: State, t: Tid, spurious: bool)
    requires Shaped(s) && t in s.threads && !s.threads[t].op.Idle?
    ensures var op := NextOp(s, t, spurious).0.threads[t].op;
      && !op.GetLoad? && !op.SetLoad? && !op.DeleteLoad?
      && (op.DeleteCas? ==>
            s.threads[t].op == DeleteLoad(op.slot) && op.seen == s.seqs[op.slot] && InUse(op.seen))
  {
  }

  /** Cleaning has no operation under way. */
  lemma CleanLeadsTo(s: State, t: Tid)
    requires Shaped(s) && t in s.threads && s.threads[t].clean.Cleaning?
    ensures NextClean(s, t).0.threads[t].op == s.threads[t].op
  {
  }

  /** The calls that look at their slot once, and the step that makes them. */
  lemma CameFrom(s: State, a: Action)
    requires Enabled(s, a)
    ensures var op := Do(s, a).0.threads[a.tid].op;
      && (op.GetLoad? ==> op.slot < KEY_COUNT && a == StartGet(a.tid, KeyOf(op.slot)))
      && (op.SetLoad? ==> op.slot < KEY_COUNT && a == StartSet(a.tid, KeyOf(op.slot), op.value))
      && (op.DeleteLoad? ==> op.slot < KEY_COUNT && a == StartDelete(a.tid, KeyOf(op.slot)))
      && (op.DeleteCas? ==>
            && a.RunOp? && s.threads[a.tid].op == DeleteLoad(op.slot)
            && op.seen == s.seqs[op.slot] && InUse(op.seen))
  {
    match a
    case RunOp(t, spurious) => RunLeadsTo(s, t, spurious);
    case RunClean(t) => CleanLeadsTo(s, t);
    case DestructorReturns(t) => CleanLeadsTo(s, t);
    case _ =>
  }

  /** pthread_getspecific and pthread_setspecific answer with their first step, whatever other threads do. */
  lemma LooksOnce(ws: seq<World>, acts: seq<Action>, n: nat, t: Tid, e: Event) returns (m: nat)
    requires IsRun(ws, acts) && n < |acts| && t == acts[n].tid && e == EventAt(ws, acts, n) && (e.Got? || e.Stored?)
    ensures m < n && Rests(acts, t, m, n) && e.key.slot < KEY_COUNT
    ensures acts[m] == if e.Got? then StartGet(t, KeyOf(e.key.slot)) else StartSet(t, KeyOf(e.key.slot), e.value)
  {
    assert StepAt(ws, acts, n);
    m := LastTurn(ws, acts, n, t);
    assert StepAt(ws, acts, m);
    CameFrom(ws[m].s, acts[m]);
  }

  /**
   * pthread_key_delete looks at its slot once and then deletes the key that it saw, or fails because
   * that key is gone, whatever other threads do.
   */
  lemma DeletesWhatItSaw(ws: seq<World>, acts: seq<Action>, n: nat, t: Tid, e: Event) returns (m: nat, look: nat)
    requires IsRun(ws, acts) && n < |acts| && t == acts[n].tid && e == EventAt(ws, acts, n) && (e.Deleted? || e.Gone?)
    ensures m < look < n && e.key.slot < KEY_COUNT && acts[m] == StartDelete(t, KeyOf(e.key.slot))
    ensures acts[look].tid == t && Rests(acts, t, m, look) && Rests(acts, t, look, n)
    ensures Current(ws[look].s.seqs, e.key)
  {
    assert StepAt(ws, acts, n);
    look := LastTurn(ws, acts, n, t);
    assert StepAt(ws, acts, look);
    CameFrom(ws[look].s, acts[look]);
    m := LastTurn(ws, acts, look, t);
    assert StepAt(ws, acts, m);
    CameFrom(ws[m].s, acts[m]);
  }

  // ---------------------------------------------------------------- undisturbed calls

  /** Thread `t` runs on, `steps` steps at most, until it is answered or cannot go on. */
  ghost function Alone(w: World, t: Tid, steps: nat): (World, Event)
    decreases steps
  {
    var a := RunOp(t, false);
    if steps == 0 || !Enabled(w.s, a) then (w, Quiet)
    else
      var e := Do(w.s, a).1;
      if e.Quiet? then Alone(Step(w, a), t, steps - 1) else (Step(w, a), e)
  }

  /** The search from a slot on, in a world that stands still. */
  lemma {:induction false} SearchAlone(w: World, t: Tid, steps: nat)
    requires Shaped(w.s) && t in w.s.threads && w.s.threads[t].op.CreateLoad?
    requires steps >= 2 * (KEY_COUNT - w.s.threads[t].op.slot)
    ensures var (op, e) := (w.s.threads[t].op, Alone(w, t, steps).1);
      if e.Created? then
        var i := e.key.slot;
        && op.slot <= i < KEY_COUNT && e == Created(Incarnation(i, w.s.seqs[i] + 1), op.destructor)
        && !InUse(w.s.seqs[i]) && forall j | op.slot <= j < i :: InUse(w.s.seqs[j])
      else e.NoSlot? && forall j | op.slot <= j < KEY_COUNT :: InUse(w.s.seqs[j])
    decreases KEY_COUNT - w.s.threads[t].op.slot
  {
    var (a, op) := (RunOp(t, false), w.s.threads[t].op);
    var w1 := Step(w, a);
    if !InUse(w.s.seqs[op.slot]) {
      assert w1.s.threads[t].op == CreateCas(op.slot, op.destructor, w.s.seqs[op.slot]) && Enabled(w1.s, a);
      assert Alone(w1, t, steps - 1).1 == Created(Incarnation(op.slot, w.s.seqs[op.slot] + 1), op.destructor);
    } else if op.slot + 1 < KEY_COUNT {
      assert w1.s.threads[t].op == CreateLoad(op.slot + 1, op.destructor) && w1.s.seqs == w.s.seqs;
      SearchAlone(w1, t, steps - 1);
    }
  }

  /** Undisturbed, pthread_key_create takes the first unused slot, and fails exactly if there is none. */
  lemma CreateAlone(w: World, t: Tid, d: int)
    requires Reachable(w) && Enabled(w.s, StartCreate(t, d))
    ensures var e := Alone(Step(w, StartCreate(t, d)), t, 2 * KEY_COUNT).1;
      if e.Created? then
        var i := e.key.slot;
        && i < KEY_COUNT && e == Created(Incarnation(i, w.s.seqs[i] + 1), d)
        && !InUse(w.s.seqs[i]) && forall j | 0 <= j < i :: InUse(w.s.seqs[j])
      else e.NoSlot? && forall j | 0 <= j < KEY_COUNT :: InUse(w.s.seqs[j])
  {
    SearchAlone(Step(w, StartCreate(t, d)), t, 2 * KEY_COUNT);
  }

  /** The key that a handle stands for. */
  ghost function KeyIn(w: World, slot: nat): Incarnation
    requires slot < |w.s.seqs|
  {
    Incarnation(slot, w.s.seqs[slot])
  }

  /** Undisturbed, pthread_getspecific returns the thread's value of the live key, if there is one. */
  lemma GetAlone(w: World, t: Tid, slot: nat)
    requires Reachable(w) && t in w.s.threads && MayCall(w.s.threads[t]) && slot < KEY_COUNT
    ensures Enabled(w.s, StartGet(t, KeyOf(slot)))
    ensures Alone(Step(w, StartGet(t, KeyOf(slot))), t, 1).1 ==
      if InUse(w.s.seqs[slot]) then Got(KeyIn(w, slot), Value(w.h, t, KeyIn(w, slot))) else Unused(slot)
  {
    ReachableInv(w);
    assert CellOk(w, t, slot);
    var w1 := Step(w, StartGet(t, KeyOf(slot)));
    assert w1.s.threads[t].op == GetLoad(slot) && w1.s.threads[t].data == w.s.threads[t].data;
  }

  /** Undisturbed, pthread_setspecific stores the value under the live key, if there is one. */
  lemma SetAlone(w: World, t: Tid, slot: nat, v: int)
    requires Reachable(w) && t in w.s.threads && MayCall(w.s.threads[t]) && slot < KEY_COUNT
    requires !BeingCreated(w.s, slot)
    ensures Enabled(w.s, StartSet(t, KeyOf(slot), v))
    ensures Alone(Step(w, StartSet(t, KeyOf(slot), v)), t, 1).1 ==
      if InUse(w.s.seqs[slot]) then Stored(KeyIn(w, slot), v) else Unused(slot)
  {
    ReachableInv(w);
    var w1 := Step(w, StartSet(t, KeyOf(slot), v));
    assert w1.s.threads[t].op == SetLoad(slot, v);
    StillNotCreated(w, w1, t, slot);
  }

  lemma StillNotCreated(w: World, w1: World, t: Tid, slot: nat)
    requires t in w.s.threads && t in w1.s.threads && w1.s.threads == w.s.threads[t := w1.s.threads[t]]
    requires !BeingCreated(w.s, slot) && !w1.s.threads[t].op.CreateStore?
    ensures !BeingCreated(w1.s, slot)
  {
  }

  /** Undisturbed, pthread_key_delete deletes the live key, if there is one. */
  lemma DeleteAlone(w: World, t: Tid, slot: nat)
    requires Reachable(w) && t in w.s.threads && MayCall(w.s.threads[t]) && slot < KEY_COUNT
    requires !BeingCreated(w.s, slot)
    ensures Enabled(w.s, StartDelete(t, KeyOf(slot)))
    ensures Alone(Step(w, StartDelete(t, KeyOf(slot))), t, 2).1 ==
      if InUse(w.s.seqs[slot]) then Deleted(KeyIn(w, slot)) else Unused(slot)
  {
    ReachableInv(w);
    var (a, w1) := (RunOp(t, false), Step(w, StartDelete(t, KeyOf(slot))));
    assert w1.s.threads[t].op == DeleteLoad(slot) && Enabled(w1.s, a);
    if InUse(w.s.seqs[slot]) {
      var w2 := Step(w1, a);
      StillNotCreated(w, w2, t, slot);
      assert w2.s.threads[t].op == DeleteCas(slot, w.s.seqs[slot]) && w2.s.seqs == w.s.seqs && Enabled(w2.s, a);
      assert Alone(w2, t, 1).1 == Deleted(KeyIn(w, slot));
    }
  }
}
