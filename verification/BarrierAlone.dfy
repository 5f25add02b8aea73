/** What a wait at a barrier comes to when nobody else moves. */
module BarrierAlone {
  import opened Threads
  import opened BarrierSpec
  import opened Barrier
  import opened BarrierProof

  /** The next step of a thread; its futex_wake, if that is next, reaches every sleeper. */
  ghost function Turn(s: State, t: Tid): Action
    requires t in s.pc
  {
    if s.pc[t].WakeOthers? || s.pc[t].WakeNext? then Wake(t, Sleepers(s)) else Run(t, false)
  }

  /** Thread `t` runs on, `steps` steps at most, until it returns or cannot go on. */
  ghost function Alone(n: nat, w: World, t: Tid, steps: nat): (World, Event)
    decreases steps
  {
    if steps == 0 || t !in w.s.pc || !Enabled(n, w.s, Turn(w.s, t)) then (w, Quiet)
    else
      var (a, e) := (Turn(w.s, t), Do(n, w.s, Turn(w.s, t)).1);
      if e.Returned? || e.Refused? then (Step(n, w, a), e) else Alone(n, Step(n, w, a), t, steps - 1)
  }

  lemma WakeEnabled(n: nat, s: State, t: Tid)
    requires t in s.pc && |s.pc.Keys| == n
    requires s.pc[t].WakeNext? || (s.pc[t].WakeOthers? && s.pc[t].prev + 1 == n)
    ensures Enabled(n, s, Turn(s, t))
  {
    SubsetSize(Sleepers(s), s.pc.Keys - {t});
  }

  lemma NextAlone(n: nat, w: World, t: Tid, steps: nat)
    requires t in w.s.pc && |w.s.pc.Keys| == n && w.s.pc[t].WakeNext? && steps >= 1
    ensures Alone(n, w, t, steps).1 == Returned(w.s.pc[t].serial)
  {
    WakeEnabled(n, w.s, t);
  }

  /** Leaving, whether or not as the last to leave. */
  lemma LeaveAlone(n: nat, w: World, t: Tid, steps: nat)
    requires t in w.s.pc && |w.s.pc.Keys| == n && w.s.pc[t].Leave? && steps >= 3
    ensures Alone(n, w, t, steps).1 == Returned(w.s.pc[t].serial)
  {
    var a := Run(t, false);
    if w.s.waitCount == 1 {
      var w1 := Step(n, w, a);
      assert w1.s.pc[t] == Reset(w.s.pc[t].serial) && w1.s.pc.Keys == w.s.pc.Keys && Enabled(n, w1.s, a);
      var w2 := Step(n, w1, a);
      assert w2.s.pc[t] == WakeNext(w.s.pc[t].serial) && w2.s.pc.Keys == w.s.pc.Keys;
      NextAlone(n, w2, t, steps - 2);
      assert Alone(n, w, t, steps) == Alone(n, w1, t, steps - 1) == Alone(n, w2, t, steps - 2);
    }
  }

  /** The last to enter lets the others go and leaves. */
  lemma PublishAlone(n: nat, w: World, t: Tid, steps: nat)
    requires t in w.s.pc && |w.s.pc.Keys| == n && w.s.pc[t].Publish? && w.s.pc[t].prev + 1 == n && steps >= 5
    ensures Alone(n, w, t, steps).1 == Returned(true)
  {
    var w1 := Step(n, w, Run(t, false));
    assert w1.s.pc[t] == WakeOthers(w.s.pc[t].prev) && w1.s.pc.Keys == w.s.pc.Keys;
    WakeEnabled(n, w1.s, t);
    var w2 := Step(n, w1, Turn(w1.s, t));
    assert w2.s.pc[t] == Leave(true) && w2.s.pc.Keys == w.s.pc.Keys;
    LeaveAlone(n, w2, t, steps - 2);
    assert Alone(n, w, t, steps) == Alone(n, w1, t, steps - 1) == Alone(n, w2, t, steps - 2);
  }

  /** A thread that has entered sleeps until the release, and then leaves. */
  lemma AwaitAlone(n: nat, w: World, t: Tid, steps: nat)
    requires t in w.s.pc && |w.s.pc.Keys| == n && w.s.pc[t].Await? && steps >= 4
    ensures var (w', e) := Alone(n, w, t, steps);
      if w.s.release then e == Returned(false) else e == Quiet && t in w'.s.pc && w'.s.pc[t].AsleepNew?
  {
    var a := Run(t, false);
    var w1 := Step(n, w, a);
    if w.s.release {
      LeaveAlone(n, w1, t, steps - 1);
    } else {
      assert w1.s.pc[t].GoSleepNew? && !w1.s.release && Enabled(n, w1.s, a);
      var w2 := Step(n, w1, a);
      assert w2.s.pc[t].AsleepNew?;
      assert Alone(n, w1, t, steps - 1) == Alone(n, w2, t, steps - 2) == (w2, Quiet);
    }
  }

  /** Entering. */
  lemma EnterAlone(n: nat, w: World, t: Tid, steps: nat)
    requires t in w.s.pc && |w.s.pc.Keys| == n && w.s.pc[t] == Cas(w.s.waitCount) && w.s.waitCount < n && steps >= 6
    requires !w.s.release
    ensures var (w', e) := Alone(n, w, t, steps);
      if w.s.waitCount + 1 == n then e == Returned(true)
      else e == Quiet && t in w'.s.pc && w'.s.pc[t].AsleepNew?
  {
    var w1 := Step(n, w, Run(t, false));
    assert w1.s.pc.Keys == w.s.pc.Keys;
    if w1.s.pc[t].Await? { AwaitAlone(n, w1, t, steps - 1); }
    else if w1.s.pc[t].Publish? { PublishAlone(n, w1, t, steps - 1); }
    else { LeaveAlone(n, w1, t, steps - 1); }
  }

  /** From the first look at the state. */
  lemma CheckAlone(n: nat, w: World, t: Tid, steps: nat)
    requires t in w.s.pc && |w.s.pc.Keys| == n && w.s.pc[t].Check? && w.s.waitCount < n && steps >= 8
    ensures var (w', e) := Alone(n, w, t, steps);
      if w.s.release then e == Quiet && t in w'.s.pc && w'.s.pc[t].AsleepOld?
      else if w.s.waitCount + 1 == n then e == Returned(true)
      else e == Quiet && t in w'.s.pc && w'.s.pc[t].AsleepNew?
  {
    var a := Run(t, false);
    var w1 := Step(n, w, a);
    if w.s.release {
      assert w1.s.pc[t].GoSleepOld? && w1.s.release && Enabled(n, w1.s, a);
      var w2 := Step(n, w1, a);
      assert w2.s.pc[t].AsleepOld?;
      assert Alone(n, w1, t, steps - 1) == Alone(n, w2, t, steps - 2) == (w2, Quiet);
    } else {
      assert w1.s.pc[t].LoadCount? && w1.s.waitCount == w.s.waitCount && Enabled(n, w1.s, a);
      var w2 := Step(n, w1, a);
      assert w2.s.pc[t] == Cas(w.s.waitCount) && w2.s.pc.Keys == w.s.pc.Keys && !w2.s.release;
      EnterAlone(n, w2, t, steps - 2);
      assert Alone(n, w, t, steps) == Alone(n, w1, t, steps - 1) == Alone(n, w2, t, steps - 2);
    }
  }

  /**
   * Undisturbed, a wait sleeps until the barrier has reopened if it is still letting threads go; if
   * not, the last to come is told that it is the serial thread and everybody else sleeps.
   */
  lemma WaitAlone(n: nat, w: World, t: Tid)
    requires Reachable(n, w) && t in w.s.pc && w.s.pc[t].Idle?
    ensures var (w', e) := Alone(n, Step(n, w, Call(t)), t, 8);
      if w.s.release then e == Quiet && t in w'.s.pc && w'.s.pc[t].AsleepOld?
      else if |Where(w.s.pc, In)| + 1 == n then e == Returned(true)
      else e == Quiet && t in w'.s.pc && w'.s.pc[t].AsleepNew?
  {
    ReachableInv(n, w);
    RoomFor(n, w, t);
    var w0 := Step(n, w, Call(t));
    assert w0.s.pc.Keys == w.s.pc.Keys;
    CheckAlone(n, w0, t, 8);
  }

  /** Undisturbed, a thread that waits inside returns 0 once the others may go. */
  lemma ReleasedAlone(n: nat, w: World, t: Tid)
    requires Reachable(n, w) && t in w.s.pc && w.s.pc[t].Await? && w.s.release
    ensures Alone(n, w, t, 4).1 == Returned(false)
  {
    ReachableInv(n, w);
    AwaitAlone(n, w, t, 4);
  }
}
