/** Whole cycles of a barrier: who returns from one, and who is its serial thread. */
module BarrierCycles {
  import opened Threads
  import opened BarrierSpec
  import opened Barrier
  import opened BarrierProof

  ghost function EventAt(n: nat, ws: seq<World>, acts: seq<Action>, i: nat): Event
    requires IsRun(n, ws, acts) && i < |acts|
  {
    assert StepAt(n, ws, acts, i);
    Do(n, ws[i].s, acts[i]).1
  }

  /** Step i is the return of thread t from its c-th wait. */
  ghost predicate ReturnAt(n: nat, ws: seq<World>, acts: seq<Action>, i: nat, t: Tid, c: nat)
    requires IsRun(n, ws, acts)
  {
    && i < |acts| && acts[i].tid == t && EventAt(n, ws, acts, i).Returned?
    && Count(ws[i].h.returned, t) + 1 == c
  }

  /** Step i is a return from the c-th cycle with PTHREAD_BARRIER_SERIAL_THREAD. */
  ghost predicate SerialAt(n: nat, ws: seq<World>, acts: seq<Action>, i: nat, c: nat)
    requires IsRun(n, ws, acts)
  {
    i < |acts| && ReturnAt(n, ws, acts, i, acts[i].tid, c) && EventAt(n, ws, acts, i) == Returned(true)
  }

  /** Everybody has returned from the c-th cycle. */
  ghost predicate Finished(w: World, c: nat) {
    forall t | t in w.s.pc :: Count(w.h.returned, t) >= c
  }

  lemma StepCounts(n: nat, w: World, a: Action, t: Tid)
    requires Enabled(n, w.s, a)
    ensures var e := Do(n, w.s, a).1;
            Count(Step(n, w, a).h.returned, t) == Count(w.h.returned, t) + One(e.Returned? && a.tid == t)
  {
  }

  lemma SameThreads(n: nat, w: World, a: Action)
    requires Enabled(n, w.s, a)
    ensures Step(n, w, a).s.pc.Keys == w.s.pc.Keys
  {
  }

  lemma {:induction false} CountsGrow(n: nat, ws: seq<World>, acts: seq<Action>, i: nat, j: nat, t: Tid)
    requires IsRun(n, ws, acts) && i <= j <= |acts|
    ensures Count(ws[i].h.returned, t) <= Count(ws[j].h.returned, t)
  {
    if i < j {
      CountsGrow(n, ws, acts, i, j - 1, t);
      assert StepAt(n, ws, acts, j - 1);
      StepCounts(n, ws[j - 1], acts[j - 1], t);
    }
  }

  /** Who has returned c times has returned from the c-th wait. */
  lemma {:induction false} ReturnExists(n: nat, ws: seq<World>, acts: seq<Action>, m: nat, t: Tid, c: nat)
      returns (i: nat)
    requires IsRun(n, ws, acts) && m <= |acts| && Count(ws[m].h.returned, t) >= c > 0
    ensures i < m && ReturnAt(n, ws, acts, i, t, c)
    decreases m
  {
    assert StepAt(n, ws, acts, m - 1);
    StepCounts(n, ws[m - 1], acts[m - 1], t);
    if Count(ws[m - 1].h.returned, t) >= c {
      i := ReturnExists(n, ws, acts, m - 1, t, c);
    } else {
      i := m - 1;
    }
  }

  /** And only once. */
  lemma ReturnUnique(n: nat, ws: seq<World>, acts: seq<Action>, i: nat, j: nat, t: Tid, c: nat)
    requires IsRun(n, ws, acts) && ReturnAt(n, ws, acts, i, t, c) && ReturnAt(n, ws, acts, j, t, c)
    ensures i == j
  {
    if i < j {
      assert StepAt(n, ws, acts, i);
      StepCounts(n, ws[i], acts[i], t);
      CountsGrow(n, ws, acts, i + 1, j, t);
    } else if j < i {
      assert StepAt(n, ws, acts, j);
      StepCounts(n, ws[j], acts[j], t);
      CountsGrow(n, ws, acts, j + 1, i, t);
    }
  }

  /** The last to enter a cycle stays the last, and is one of the threads. */
  ghost predicate LastKept(w: World, w': World) {
    forall k | k in w.h.last :: k in w'.h.last && w'.h.last[k] == w.h.last[k]
  }

  ghost predicate LastKnown(w: World) { forall k | k in w.h.last :: w.h.last[k] in w.s.pc }

  lemma LastAfter(n: nat, w: World, a: Action)
    requires Enabled(n, w.s, a)
    ensures var (e, c) := (Do(n, w.s, a).1, Count(w.h.entered, a.tid) + 1);
            var last := Step(n, w, a).h.last;
            last == w.h.last || (e.Entered? && last == w.h.last[c := a.tid])
  {
  }

  lemma EntersOpenCycle(n: nat, w: World, a: Action)
    requires PcsOk(n, w) && CountsOk(n, w) && Enabled(n, w.s, a) && Do(n, w.s, a).1.Entered?
    ensures Count(w.h.entered, a.tid) + 1 !in w.h.last
  {
    assert PcOk(n, w, a.tid);
    assert !Full(w);
  }

  lemma OneMore(w: World, w': World, c: nat, t: Tid)
    requires t in w.s.pc && w'.s.pc.Keys == w.s.pc.Keys
    requires w'.h.last == w.h.last || (c !in w.h.last && w'.h.last == w.h.last[c := t])
    ensures LastKept(w, w') && (LastKnown(w) ==> LastKnown(w'))
  {
  }

  lemma LastStep(n: nat, w: World, a: Action)
    requires PcsOk(n, w) && CountsOk(n, w) && Enabled(n, w.s, a)
    ensures LastKept(w, Step(n, w, a)) && (LastKnown(w) ==> LastKnown(Step(n, w, a)))
  {
    SameThreads(n, w, a);
    LastAfter(n, w, a);
    if Do(n, w.s, a).1.Entered? {
      EntersOpenCycle(n, w, a);
    }
    OneMore(w, Step(n, w, a), Count(w.h.entered, a.tid) + 1, a.tid);
  }

  lemma RunStep(n: nat, ws: seq<World>, acts: seq<Action>, k: nat)
    requires IsRun(n, ws, acts) && k < |acts|
    ensures LastKept(ws[k], ws[k + 1]) && (LastKnown(ws[k]) ==> LastKnown(ws[k + 1]))
    ensures ws[k + 1].s.pc.Keys == ws[k].s.pc.Keys
    ensures Legal(ws[k].s.pc.Keys, ws[k].h, acts[k].tid, EventAt(n, ws, acts, k))
  {
    RunKeepsInv(n, ws, acts, k);
    assert StepAt(n, ws, acts, k);
    AnyStep(n, ws[k], acts[k]);
    LastStep(n, ws[k], acts[k]);
    SameThreads(n, ws[k], acts[k]);
  }

  lemma {:induction false} LastForever(n: nat, ws: seq<World>, acts: seq<Action>, i: nat, j: nat)
    requires IsRun(n, ws, acts) && i <= j <= |acts|
    ensures LastKept(ws[i], ws[j])
    decreases j
  {
    if i < j {
      LastForever(n, ws, acts, i, j - 1);
      RunStep(n, ws, acts, j - 1);
    }
  }

  lemma {:induction false} LastsKnown(n: nat, ws: seq<World>, acts: seq<Action>, j: nat)
    requires IsRun(n, ws, acts) && j <= |acts|
    ensures LastKnown(ws[j])
  {
    if j > 0 {
      LastsKnown(n, ws, acts, j - 1);
      RunStep(n, ws, acts, j - 1);
    }
  }

  /** A return is serial exactly if the thread is the one that is the last of the cycle for good. */
  lemma SerialIffLast(n: nat, ws: seq<World>, acts: seq<Action>, i: nat, t: Tid, c: nat)
    requires IsRun(n, ws, acts) && ReturnAt(n, ws, acts, i, t, c)
    ensures c in ws[|acts|].h.last && (SerialAt(n, ws, acts, i, c) <==> ws[|acts|].h.last[c] == t)
  {
    RunStep(n, ws, acts, i);
    LastForever(n, ws, acts, i, |acts|);
  }

  /** Of the returns from a finished cycle exactly one is the serial thread's. */
  lemma OneSerialPerCycle(n: nat, ws: seq<World>, acts: seq<Action>, c: nat) returns (i: nat)
    requires IsRun(n, ws, acts) && c > 0 && Finished(ws[|acts|], c)
    ensures SerialAt(n, ws, acts, i, c)
    ensures forall j: nat | SerialAt(n, ws, acts, j, c) :: j == i
  {
    var w := ws[|acts|];
    LastsKnown(n, ws, acts, |acts|);
    var t := SomeThread(n, ws, acts);
    var k := ReturnExists(n, ws, acts, |acts|, t, c);
    SerialIffLast(n, ws, acts, k, t, c);
    var last := w.h.last[c];
    i := ReturnExists(n, ws, acts, |acts|, last, c);
    SerialIffLast(n, ws, acts, i, last, c);
    forall j: nat | SerialAt(n, ws, acts, j, c) ensures j == i {
      SerialIffLast(n, ws, acts, j, acts[j].tid, c);
      ReturnUnique(n, ws, acts, i, j, last, c);
    }
  }

  lemma SomeThread(n: nat, ws: seq<World>, acts: seq<Action>) returns (t: Tid)
    requires IsRun(n, ws, acts)
    ensures t in ws[|acts|].s.pc
  {
    RunKeepsInv(n, ws, acts, |acts|);
    assert ws[|acts|].s.pc.Keys != {};
    t :| t in ws[|acts|].s.pc.Keys;
  }

  /** Every thread returns from a finished cycle exactly once. */
  lemma OneReturnPerThread(n: nat, ws: seq<World>, acts: seq<Action>, t: Tid, c: nat) returns (i: nat)
    requires IsRun(n, ws, acts) && c > 0 && Finished(ws[|acts|], c) && t in ws[|acts|].s.pc
    ensures ReturnAt(n, ws, acts, i, t, c)
    ensures forall j: nat | ReturnAt(n, ws, acts, j, t, c) :: j == i
  {
    i := ReturnExists(n, ws, acts, |acts|, t, c);
    forall j: nat | ReturnAt(n, ws, acts, j, t, c) ensures j == i {
      ReturnUnique(n, ws, acts, i, j, t, c);
    }
  }
}
