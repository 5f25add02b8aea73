/** The rounds in which an exiting thread calls its destructors, in every run. */
module KeysExit {
  import opened Threads
  import opened KeysSpec
  import opened Keys
  import opened KeysProof

  // ---------------------------------------------------------------- what happens between two steps

  /** The slots that thread `t` starts to look at in the steps from `b` to `c`, in order. */
  ghost function Looks(ws: seq<World>, acts: seq<Action>, t: Tid, b: nat, c: nat): seq<nat>
    requires b <= c <= |acts| < |ws|
    decreases c
  {
    if b == c then []
    else Looks(ws, acts, t, b, c - 1) + LooksAt(ws, acts, t, c - 1)
  }

  ghost function LooksAt(ws: seq<World>, acts: seq<Action>, t: Tid, j: nat): seq<nat>
    requires j < |acts| < |ws|
  {
    if acts[j] == RunClean(t) && t in ws[j].s.threads then LooksFrom(ws[j].s.threads[t].clean) else []
  }

  function LooksFrom(c: Clean): seq<nat> {
    if c.Cleaning? && c.sub.Check? then [c.slot] else []
  }

  /** How many destructors thread `t` calls in those steps. */
  ghost function Calls(ws: seq<World>, acts: seq<Action>, t: Tid, b: nat, c: nat): nat
    requires IsRun(ws, acts) && b <= c <= |acts|
    decreases c
  {
    if b == c then 0
    else
      Calls(ws, acts, t, b, c - 1) +
        if acts[c - 1].tid == t && EventAt(ws, acts, c - 1).Destroying? then 1 else 0
  }

  function UpTo(n: nat): (r: seq<nat>)
    ensures |r| == n && forall i | 0 <= i < n :: r[i] == i
  {
    seq(n, i => i)
  }

  // ---------------------------------------------------------------- rounds

  /** From `b` to `c` the thread looks at every slot once, in order. */
  ghost predicate Round(ws: seq<World>, acts: seq<Action>, t: Tid, b: nat, c: nat)
    requires |acts| < |ws|
  {
    b < c <= |acts| && Looks(ws, acts, t, b, c) == UpTo(KEY_COUNT)
  }

  /** The thread started to exit at step `m` and has finished the rounds between the steps `bs`. */
  ghost predicate Rounds(ws: seq<World>, acts: seq<Action>, n: nat, t: Tid, m: nat, bs: seq<nat>)
    requires IsRun(ws, acts) && n <= |acts|
  {
    && m < n && acts[m] == StartExit(t)
    && |bs| > 0 && bs[0] == m + 1 && bs[|bs| - 1] <= n
    && forall r {:trigger bs[r]} | 0 <= r < |bs| - 1 :: Round(ws, acts, t, bs[r], bs[r + 1])
  }

  /** The first `k` of the rounds called destructors. */
  ghost predicate Busy(ws: seq<World>, acts: seq<Action>, n: nat, t: Tid, m: nat, bs: seq<nat>, k: nat)
    requires IsRun(ws, acts) && n <= |acts| && Rounds(ws, acts, n, t, m, bs)
  {
    k < |bs| && forall r {:trigger bs[r]} | 0 <= r < k :: Calls(ws, acts, t, bs[r], bs[r + 1]) > 0
  }

  /** Where the thread stands in its rounds. */
  ghost predicate Stands(ws: seq<World>, acts: seq<Action>, n: nat, t: Tid, m: nat, bs: seq<nat>)
    requires IsRun(ws, acts) && n <= |acts| && t in ws[n].s.threads && Rounds(ws, acts, n, t, m, bs)
  {
    var (done, last) := (|bs| - 1, bs[|bs| - 1]);
    match ws[n].s.threads[t].clean
    case NotExiting => false
    case Cleaning(rounds, slot, called, sub) =>
      && rounds >= 1 && done + rounds == ITERATIONS && Busy(ws, acts, n, t, m, bs, done)
      && Looks(ws, acts, t, last, n) == UpTo(if sub.Check? then slot else slot + 1)
      && Calls(ws, acts, t, last, n) == called
    case Finished(quiet) =>
      && 1 <= done <= ITERATIONS && Busy(ws, acts, n, t, m, bs, done - 1)
      && (quiet <==> Calls(ws, acts, t, bs[done - 1], last) == 0)
      && (!quiet ==> done == ITERATIONS)
  }

  // ---------------------------------------------------------------- one step

  /** The two ways in which a step of pthread_key_clean_all goes on: within a slot, or beyond it. */
  predicate Within(c: Clean, c': Clean, destroys: bool) {
    && c.Cleaning? && c'.Cleaning? && c'.rounds == c.rounds && c'.slot == c.slot && !c'.sub.Check?
    && c'.called == if destroys then c.called + 1 else c.called
  }

  predicate Beyond(c: Clean, c': Clean, destroys: bool) {
    c.Cleaning? && c' == Advance(c) && !destroys
  }

  lemma CleanGoes(s: State, t: Tid)
    requires Shaped(s) && t in s.threads && s.threads[t].clean.Cleaning?
    ensures var (s', e) := NextClean(s, t);
      && t in s'.threads
      && (|| Within(s.threads[t].clean, s'.threads[t].clean, e.Destroying?)
          || Beyond(s.threads[t].clean, s'.threads[t].clean, e.Destroying?))
  {
  }

  lemma OpGoes(s: State, t: Tid, spurious: bool)
    requires Shaped(s) && t in s.threads && !s.threads[t].op.Idle?
    ensures var (s', e) := NextOp(s, t, spurious);
            t in s'.threads && s'.threads[t].clean == s.threads[t].clean && !e.Destroying?
  {
  }

  lemma StepGoes(s: State, a: Action, t: Tid)
    requires Enabled(s, a) && t in s.threads
    ensures var (s', e) := Do(s, a);
      && t in s'.threads
      && var (c, c', mine) := (s.threads[t].clean, s'.threads[t].clean, a.tid == t && e.Destroying?);
         if a == StartExit(t) then c' == Cleaning(ITERATIONS, 0, 0, Check) && !mine
         else if a.tid == t && (a.RunClean? || a.DestructorReturns?) then
           && (Within(c, c', mine) || Beyond(c, c', mine))
           && (a.DestructorReturns? <==> c.sub.InDestructor?)
         else c' == c && !mine
  {
    if a.tid == t {
      match a
      case RunOp(_, spurious) => OpGoes(s, t, spurious);
      case RunClean(_) => CleanGoes(s, t);
      case DestructorReturns(_) => CleanGoes(s, t);
      case _ =>
    }
  }

  predicate EndsRound(c: Clean, c': Clean) {
    c.Cleaning? && c' == Advance(c) && c.slot + 1 >= KEY_COUNT
  }

  /** What one step adds to what the thread has looked at and called. */
  lemma OneMore(ws: seq<World>, acts: seq<Action>, n: nat, t: Tid, b: nat)
    requires IsRun(ws, acts) && b <= n < |acts| && t in ws[n].s.threads && acts[n] != StartExit(t)
    ensures t in ws[n + 1].s.threads
    ensures var (c, c') := (ws[n].s.threads[t].clean, ws[n + 1].s.threads[t].clean);
      var calls := Calls(ws, acts, t, b, n + 1) - Calls(ws, acts, t, b, n);
      && 0 <= calls <= 1
      && (c' == c || Within(c, c', calls == 1) || Beyond(c, c', calls == 1))
      && (c' == c ==> calls == 0)
      && Looks(ws, acts, t, b, n + 1) == Looks(ws, acts, t, b, n) + if c' == c then [] else LooksFrom(c)
  {
    assert StepAt(ws, acts, n);
    StepGoes(ws[n].s, acts[n], t);
  }

  /** Rounds that are over stay as they are. */
  lemma StillRounds(ws: seq<World>, acts: seq<Action>, n: nat, t: Tid, m: nat, bs: seq<nat>, k: nat)
    requires IsRun(ws, acts) && n < |acts| && Rounds(ws, acts, n, t, m, bs) && Busy(ws, acts, n, t, m, bs, k)
    ensures Rounds(ws, acts, n + 1, t, m, bs) && Busy(ws, acts, n + 1, t, m, bs, k)
  {
  }

  /** What a step within a round adds to it. */
  lemma LooksGrow(ws: seq<World>, acts: seq<Action>, n: nat, t: Tid, b: nat)
    requires IsRun(ws, acts) && b <= n < |acts| && t in ws[n].s.threads && acts[n] != StartExit(t)
    requires t in ws[n + 1].s.threads && ws[n].s.threads[t].clean.Cleaning?
    requires !EndsRound(ws[n].s.threads[t].clean, ws[n + 1].s.threads[t].clean)
    requires var c := ws[n].s.threads[t].clean;
      && Looks(ws, acts, t, b, n) == UpTo(if c.sub.Check? then c.slot else c.slot + 1)
      && Calls(ws, acts, t, b, n) == c.called
    ensures var (c, c') := (ws[n].s.threads[t].clean, ws[n + 1].s.threads[t].clean);
      && c'.Cleaning? && c'.rounds == c.rounds
      && Looks(ws, acts, t, b, n + 1) == UpTo(if c'.sub.Check? then c'.slot else c'.slot + 1)
      && Calls(ws, acts, t, b, n + 1) == c'.called
  {
    var c := ws[n].s.threads[t].clean;
    OneMore(ws, acts, n, t, b);
    assert UpTo(c.slot) + [c.slot] == UpTo(c.slot + 1);
  }

  /** A step that leaves the thread in its round, or after its last. */
  lemma StaysInRound(ws: seq<World>, acts: seq<Action>, n: nat, t: Tid, m: nat, bs: seq<nat>)
    requires IsRun(ws, acts) && n < |acts| && t in ws[n].s.threads && acts[n] != StartExit(t)
    requires Rounds(ws, acts, n, t, m, bs) && Stands(ws, acts, n, t, m, bs) && t in ws[n + 1].s.threads
    requires !EndsRound(ws[n].s.threads[t].clean, ws[n + 1].s.threads[t].clean)
    ensures Rounds(ws, acts, n + 1, t, m, bs) && Stands(ws, acts, n + 1, t, m, bs)
  {
    if ws[n].s.threads[t].clean.Cleaning? {
      StillRounds(ws, acts, n, t, m, bs, |bs| - 1);
      LooksGrow(ws, acts, n, t, bs[|bs| - 1]);
    } else {
      StillRounds(ws, acts, n, t, m, bs, |bs| - 2);
      OneMore(ws, acts, n, t, bs[|bs| - 1]);
    }
  }

  /** One more round. */
  lemma RoundAdded(ws: seq<World>, acts: seq<Action>, n: nat, t: Tid, m: nat, bs: seq<nat>)
    requires IsRun(ws, acts) && n < |acts| && Rounds(ws, acts, n, t, m, bs) && Busy(ws, acts, n, t, m, bs, |bs| - 1)
    requires Round(ws, acts, t, bs[|bs| - 1], n + 1)
    ensures Rounds(ws, acts, n + 1, t, m, bs + [n + 1]) && Busy(ws, acts, n + 1, t, m, bs + [n + 1], |bs| - 1)
    ensures Calls(ws, acts, t, bs[|bs| - 1], n + 1) > 0 ==> Busy(ws, acts, n + 1, t, m, bs + [n + 1], |bs|)
  {
    var bs' := bs + [n + 1];
    assert bs'[|bs| - 1] == bs[|bs| - 1] && bs'[|bs|] == n + 1;
    assert Rounds(ws, acts, n + 1, t, m, bs');
  }

  /** The last slot's step makes the round complete. */
  lemma RoundLooked(ws: seq<World>, acts: seq<Action>, n: nat, t: Tid, b: nat)
    requires IsRun(ws, acts) && b <= n < |acts| && t in ws[n].s.threads && acts[n] != StartExit(t)
    requires t in ws[n + 1].s.threads && ws[n].s.threads[t].clean.Cleaning?
    requires EndsRound(ws[n].s.threads[t].clean, ws[n + 1].s.threads[t].clean)
    requires var c := ws[n].s.threads[t].clean;
      c.slot < KEY_COUNT && Looks(ws, acts, t, b, n) == UpTo(if c.sub.Check? then c.slot else c.slot + 1)
    ensures Round(ws, acts, t, b, n + 1) && Calls(ws, acts, t, b, n + 1) == Calls(ws, acts, t, b, n)
  {
    var c := ws[n].s.threads[t].clean;
    OneMore(ws, acts, n, t, b);
    assert UpTo(c.slot) + [c.slot] == UpTo(c.slot + 1);
    assert c.slot + 1 == KEY_COUNT;
  }

  /** At the end of a round the next one begins, unless this one was quiet or the last. */
  lemma StandsAfterRound(ws: seq<World>, acts: seq<Action>, n: nat, t: Tid, m: nat, bs: seq<nat>, c: Clean)
    requires IsRun(ws, acts) && n <= |acts| && t in ws[n].s.threads && Rounds(ws, acts, n, t, m, bs)
    requires EndsRound(c, ws[n].s.threads[t].clean) && c.rounds >= 1 && |bs| >= 2 && bs[|bs| - 1] == n
    requires |bs| - 2 + c.rounds == ITERATIONS && Busy(ws, acts, n, t, m, bs, |bs| - 2)
    requires Calls(ws, acts, t, bs[|bs| - 2], n) == c.called
    requires c.called > 0 ==> Busy(ws, acts, n, t, m, bs, |bs| - 1)
    ensures Stands(ws, acts, n, t, m, bs)
  {
    assert Looks(ws, acts, t, n, n) == UpTo(0);
  }

  /** A step that completes a round. */
  lemma EndsTheRound(ws: seq<World>, acts: seq<Action>, n: nat, t: Tid, m: nat, bs: seq<nat>)
    requires IsRun(ws, acts) && n < |acts| && t in ws[n].s.threads && acts[n] != StartExit(t)
    requires Rounds(ws, acts, n, t, m, bs) && Stands(ws, acts, n, t, m, bs) && t in ws[n + 1].s.threads
    requires EndsRound(ws[n].s.threads[t].clean, ws[n + 1].s.threads[t].clean)
    requires ws[n].s.threads[t].clean.slot < KEY_COUNT
    ensures Rounds(ws, acts, n + 1, t, m, bs + [n + 1]) && Stands(ws, acts, n + 1, t, m, bs + [n + 1])
  {
    var (c, last, bs') := (ws[n].s.threads[t].clean, bs[|bs| - 1], bs + [n + 1]);
    RoundLooked(ws, acts, n, t, last);
    RoundAdded(ws, acts, n, t, m, bs);
    assert |bs'| == |bs| + 1 && bs'[|bs'| - 2] == last && bs'[|bs'| - 1] == n + 1;
    StandsAfterRound(ws, acts, n + 1, t, m, bs', c);
  }

  /** The first round begins. */
  lemma ExitStarts(ws: seq<World>, acts: seq<Action>, n: nat, t: Tid)
    requires IsRun(ws, acts) && n < |acts| && t in ws[n].s.threads && acts[n] == StartExit(t)
    ensures t in ws[n + 1].s.threads && Rounds(ws, acts, n + 1, t, n, [n + 1]) && Stands(ws, acts, n + 1, t, n, [n + 1])
  {
    assert StepAt(ws, acts, n);
    StepGoes(ws[n].s, acts[n], t);
    assert Looks(ws, acts, t, n + 1, n + 1) == UpTo(0);
  }

  lemma {:induction false} ExitSoFar(ws: seq<World>, acts: seq<Action>, n: nat, t: Tid) returns (m: nat, bs: seq<nat>)
    requires IsRun(ws, acts) && n <= |acts| && t in ws[n].s.threads && !ws[n].s.threads[t].clean.NotExiting?
    ensures Rounds(ws, acts, n, t, m, bs) && Stands(ws, acts, n, t, m, bs)
  {
    assert StepAt(ws, acts, n - 1);
    StepGoes(ws[n - 1].s, acts[n - 1], t);
    if acts[n - 1] == StartExit(t) {
      ExitStarts(ws, acts, n - 1, t);
      m, bs := n - 1, [n];
    } else {
      m, bs := ExitSoFar(ws, acts, n - 1, t);
      bs := GoesOn(ws, acts, n - 1, t, m, bs);
    }
  }

  lemma GoesOn(ws: seq<World>, acts: seq<Action>, n: nat, t: Tid, m: nat, bs: seq<nat>) returns (bs': seq<nat>)
    requires IsRun(ws, acts) && n < |acts| && t in ws[n].s.threads && acts[n] != StartExit(t)
    requires Rounds(ws, acts, n, t, m, bs) && Stands(ws, acts, n, t, m, bs) && t in ws[n + 1].s.threads
    ensures Rounds(ws, acts, n + 1, t, m, bs') && Stands(ws, acts, n + 1, t, m, bs')
  {
    bs' := bs;
    if EndsRound(ws[n].s.threads[t].clean, ws[n + 1].s.threads[t].clean) {
      assert StepAt(ws, acts, n);
      EndsTheRound(ws, acts, n, t, m, bs);
      bs' := bs + [n + 1];
    } else {
      StaysInRound(ws, acts, n, t, m, bs);
    }
  }

  /**
   * An exiting thread goes through the slots in rounds, each round over every slot in order. It
   * stops after the first round that called no destructor, and otherwise after the last of
   * PTHREAD_DESTRUCTOR_ITERATIONS rounds, each of which called one.
   */
  lemma ExitTakesRounds(ws: seq<World>, acts: seq<Action>, n: nat, t: Tid, quiet: bool) returns (m: nat, bs: seq<nat>)
    requires IsRun(ws, acts) && n <= |acts| && t in ws[n].s.threads
    requires ws[n].s.threads[t].clean == Finished(quiet)
    ensures Rounds(ws, acts, n, t, m, bs) && 1 <= |bs| - 1 <= 4
    ensures forall r | 0 <= r < |bs| - 2 :: Calls(ws, acts, t, bs[r], bs[r + 1]) > 0
    ensures quiet <==> Calls(ws, acts, t, bs[|bs| - 2], bs[|bs| - 1]) == 0
    ensures !quiet ==> |bs| - 1 == 4
  {
    m, bs := ExitSoFar(ws, acts, n, t);
  }

  // ---------------------------------------------------------------- an undisturbed look at a slot

  /** Thread `t` goes on cleaning, `steps` steps at most, until it calls a destructor or has left slot `i`. */
  ghost function Alone(w: World, t: Tid, i: nat, steps: nat): (World, Event)
    decreases steps
  {
    var a := RunClean(t);
    if steps == 0 || !Enabled(w.s, a) || w.s.threads[t].clean.slot != i then (w, Quiet)
    else
      var e := Do(w.s, a).1;
      if e.Quiet? then Alone(Step(w, a), t, i, steps - 1) else (Step(w, a), e)
  }

  /** The destructor of the slot's key, if the thread has a value for it. */
  ghost function DueAt(w: World, t: Tid, i: nat): Event
    requires i < |w.s.seqs|
  {
    var k := Incarnation(i, w.s.seqs[i]);
    if InUse(k.serial) && Value(w.h, t, k) != 0 && k in w.h.destructors && w.h.destructors[k] != 0
    then Destroying(k, w.h.destructors[k], Value(w.h, t, k))
    else Quiet
  }

  /** Undisturbed, an exiting thread that looks at a slot calls exactly the destructor that is due there. */
  lemma LookAlone(w: World, t: Tid)
    requires Reachable(w) && t in w.s.threads && w.s.threads[t].op.Idle?
    requires w.s.threads[t].clean.Cleaning? && w.s.threads[t].clean.sub.Check?
    ensures Shaped(w.s)
    ensures var i := w.s.threads[t].clean.slot; Alone(w, t, i, 3).1 == DueAt(w, t, i)
  {
    ReachableInv(w);
    var (a, th) := (RunClean(t), w.s.threads[t]);
    var (i, sq) := (th.clean.slot, w.s.seqs[th.clean.slot]);
    assert CellOk(w, t, i) && SlotOk(w, i) && Enabled(w.s, a);
    var w1 := Step(w, a);
    if InUse(sq) && sq == th.data[i].serial && th.data[i].data != 0 {
      assert w1.s == Put(w.s, t, th.(clean := th.clean.(sub := ReadDestructor(sq)))) && w1.h == w.h;
      ReadAlone(w1, t);
    } else {
      Leaves(w1, t, i, 2);
    }
  }

  /** The destructor is read and called, if there is one. */
  lemma ReadAlone(w: World, t: Tid)
    requires Shaped(w.s) && t in w.s.threads && w.s.threads[t].op.Idle?
    requires w.s.threads[t].clean.Cleaning?
    requires var (th, i) := (w.s.threads[t], w.s.threads[t].clean.slot);
      th.clean.sub == ReadDestructor(w.s.seqs[i]) && th.data[i].serial == w.s.seqs[i]
    ensures var (i, d) := (w.s.threads[t].clean.slot, w.s.destructors[w.s.threads[t].clean.slot]);
      Alone(w, t, i, 2).1 ==
        if d == 0 then Quiet else Destroying(Incarnation(i, w.s.seqs[i]), d, w.s.threads[t].data[i].data)
  {
    var (a, i) := (RunClean(t), w.s.threads[t].clean.slot);
    var w1 := Step(w, a);
    if w.s.destructors[i] != 0 {
      assert w1.s.threads[t].clean.sub == Recheck(w.s.seqs[i], w.s.destructors[i]) && Enabled(w1.s, a);
    } else {
      Leaves(w1, t, i, 1);
    }
  }

  /** A thread that has left the slot is done with it. */
  lemma Leaves(w: World, t: Tid, i: nat, steps: nat)
    requires t in w.s.threads && (w.s.threads[t].clean.Cleaning? ==> w.s.threads[t].clean.slot != i)
    ensures Alone(w, t, i, steps) == (w, Quiet)
  {
  }
}
