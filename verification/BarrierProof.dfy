/** Every run of a barrier by exactly init_count threads, over any number of cycles. */
module BarrierProof {
  import opened Threads
  import opened BarrierSpec
  import opened Barrier

  // ---------------------------------------------------------------- runs

  datatype World = World(s: State, h: History)

  ghost predicate Start(n: nat, w: World) {
    Init(n, w.s) && w.h == History(map[], map[], 0, map[])
  }

  ghost function Step(n: nat, w: World, a: Action): World
    requires Enabled(n, w.s, a)
  {
    var (s', e) := Do(n, w.s, a);
    World(s', After(w.s.pc.Keys, w.h, a.tid, e))
  }

  ghost predicate StepAt(n: nat, ws: seq<World>, acts: seq<Action>, i: nat)
    requires i < |acts| && |ws| == |acts| + 1
  {
    Enabled(n, ws[i].s, acts[i]) && ws[i + 1] == Step(n, ws[i], acts[i])
  }

  ghost predicate IsRun(n: nat, ws: seq<World>, acts: seq<Action>) {
    && |ws| == |acts| + 1 && Start(n, ws[0])
    && forall i: nat {:trigger StepAt(n, ws, acts, i)} | i < |acts| :: StepAt(n, ws, acts, i)
  }

  ghost predicate Reachable(n: nat, w: World) {
    exists ws, acts :: IsRun(n, ws, acts) && w == ws[|acts|]
  }

  // ---------------------------------------------------------------- invariant

  /** The thread is counted in wait_count. */
  predicate In(pc: Pc) {
    pc.Publish? || pc.WakeOthers? || pc.Await? || pc.GoSleepNew? || pc.AsleepNew? || pc.Leave?
  }

  predicate Outside(pc: Pc) {
    pc.Idle? || pc.Check? || pc.GoSleepOld? || pc.AsleepOld?
  }

  predicate Waiting(pc: Pc) {
    pc.Await? || pc.GoSleepNew? || pc.AsleepNew?
  }

  /** Everybody has entered the current cycle. */
  ghost predicate Full(w: World) {
    AllEntered(w.s.pc.Keys, w.h, w.h.reopened + 1)
  }

  ghost predicate CameLast(h: History, cycle: nat, t: Tid) {
    cycle in h.last && h.last[cycle] == t
  }

  /** How far a thread at `pc` has come, in terms of the cycles completed so far. */
  ghost predicate Progress(n: nat, w: World, t: Tid, pc: Pc) {
    var (c, e, r) := (w.h.reopened, Count(w.h.entered, t), Count(w.h.returned, t));
    && (Outside(pc) ==> e == r && (e == c || (e == c + 1 && w.s.release)))
    && (pc.LoadCount? || pc.Cas? ==> e == r == c && !w.s.release)
    && (In(pc) || pc.Reset? ==> e == c + 1 && r == c)
    && (pc.WakeNext? ==> e == c == r + 1 && !w.s.release)
  }

  /** What else a thread's program counter implies. */
  ghost predicate Role(n: nat, w: World, t: Tid, pc: Pc) {
    var c := w.h.reopened;
    && (pc.Cas? ==> pc.prev < n)
    && (pc.Publish? ==> !w.s.release && w.s.waitCount == n)
    && (pc.WakeOthers? ==> w.s.release)
    && (pc.Publish? || pc.WakeOthers? ==> pc.prev + 1 == n > 1 && CameLast(w.h, c + 1, t))
    && (Waiting(pc) ==> n > 1 && !CameLast(w.h, c + 1, t))
    && (pc.Leave? || pc.Reset? ==>
          (w.s.release || n == 1) && c + 1 in w.h.last && (pc.serial <==> w.h.last[c + 1] == t))
    && (pc.Reset? ==> w.s.waitCount == 0)
    && (pc.WakeNext? ==> c in w.h.last && (pc.serial <==> w.h.last[c] == t))
  }

  ghost predicate PcOk(n: nat, w: World, t: Tid)
    requires t in w.s.pc
  {
    Progress(n, w, t, w.s.pc[t]) && Role(n, w, t, w.s.pc[t])
  }

  ghost predicate PcsOk(n: nat, w: World) {
    forall t {:trigger PcOk(n, w, t)} | t in w.s.pc :: PcOk(n, w, t)
  }

  predicate AtReset(pc: Pc) { pc.Reset? }
  predicate AtPublish(pc: Pc) { pc.Publish? }
  predicate AtAsleepOld(pc: Pc) { pc.AsleepOld? }
  predicate AtAsleepNew(pc: Pc) { pc.AsleepNew? }
  predicate AtWakeNext(pc: Pc) { pc.WakeNext? }
  predicate AtWakeOthers(pc: Pc) { pc.WakeOthers? }

  ghost predicate Any(s: State, p: Pc -> bool) {
    exists t :: t in s.pc && p(s.pc[t])
  }

  ghost predicate CountsOk(n: nat, w: World) {
    && n > 0 && |w.s.pc.Keys| == n
    && w.s.waitCount == |Where(w.s.pc, In)|
    && (Full(w) <==> w.h.reopened + 1 in w.h.last)
    && (forall k | k in w.h.last :: k <= w.h.reopened + 1)
    && (w.s.release ==> Full(w))
    && (forall t, u | t in w.s.pc && u in w.s.pc && w.s.pc[t].Reset? && w.s.pc[u].Reset? :: t == u)
  }

  /** Somebody is on the way to end each phase. */
  ghost predicate PhasesEnd(n: nat, w: World) {
    && (w.s.release ==> w.s.waitCount > 0 || Any(w.s, AtReset))
    && (!w.s.release && Full(w) && n > 1 ==> Any(w.s, AtPublish))
  }

  /** A sleeper's phase has not ended, or its wakeup is still to come. */
  ghost predicate SleepersOwed(s: State) {
    && (Any(s, AtAsleepOld) ==> s.release || Any(s, AtWakeNext))
    && (Any(s, AtAsleepNew) ==> !s.release || Any(s, AtWakeOthers))
  }

  ghost predicate Inv(n: nat, w: World) {
    PcsOk(n, w) && CountsOk(n, w) && PhasesEnd(n, w) && SleepersOwed(w.s)
  }

  // ---------------------------------------------------------------- steps

  ghost predicate Good(n: nat, w: World, a: Action)
    requires Enabled(n, w.s, a)
  {
    Legal(w.s.pc.Keys, w.h, a.tid, Do(n, w.s, a).1) && Inv(n, Step(n, w, a))
  }

  /** Another thread that was at `p` still is. */
  lemma AnyOther(s: State, t: Tid, pc: Pc, p: Pc -> bool)
    requires Any(s, p) && t in s.pc && !p(s.pc[t])
    ensures Any(MoveTo(s, t, pc), p)
  {
    var u :| u in s.pc && p(s.pc[u]);
    assert u in MoveTo(s, t, pc).pc && p(MoveTo(s, t, pc).pc[u]);
  }

  ghost predicate Plain(pc: Pc) {
    !pc.Publish? && !pc.Reset? && !pc.WakeOthers? && !pc.WakeNext?
  }

  lemma MovesPcs(n: nat, w: World, t: Tid, pc: Pc)
    requires PcsOk(n, w) && t in w.s.pc && Progress(n, w, t, pc) && Role(n, w, t, pc)
    ensures PcsOk(n, w.(s := MoveTo(w.s, t, pc)))
  {
    var w' := w.(s := MoveTo(w.s, t, pc));
    forall u | u in w'.s.pc ensures PcOk(n, w', u) {
      assert u != t ==> PcOk(n, w, u);
    }
  }

  lemma MovesCounts(n: nat, w: World, t: Tid, pc: Pc)
    requires CountsOk(n, w) && t in w.s.pc
    requires In(w.s.pc[t]) == In(pc) && !pc.Reset?
    ensures CountsOk(n, w.(s := MoveTo(w.s, t, pc)))
  {
    WhereUpdate(w.s.pc, t, pc, In);
    assert MoveTo(w.s, t, pc).pc.Keys == w.s.pc.Keys;
  }

  lemma MovesPhases(n: nat, w: World, t: Tid, pc: Pc)
    requires PhasesEnd(n, w) && t in w.s.pc && Plain(w.s.pc[t])
    ensures PhasesEnd(n, w.(s := MoveTo(w.s, t, pc)))
  {
    assert MoveTo(w.s, t, pc).pc.Keys == w.s.pc.Keys;
    if Any(w.s, AtReset) { AnyOther(w.s, t, pc, AtReset); }
    if Any(w.s, AtPublish) { AnyOther(w.s, t, pc, AtPublish); }
  }

  lemma MovesSleepers(s: State, t: Tid, pc: Pc)
    requires SleepersOwed(s) && t in s.pc && Plain(s.pc[t])
    requires pc.AsleepOld? ==> s.release
    requires pc.AsleepNew? ==> !s.release
    ensures SleepersOwed(MoveTo(s, t, pc))
  {
    if Any(s, AtWakeNext) { AnyOther(s, t, pc, AtWakeNext); }
    if Any(s, AtWakeOthers) { AnyOther(s, t, pc, AtWakeOthers); }
  }

  /** A step that only moves a thread between program points that count alike. */
  lemma Moves(n: nat, w: World, t: Tid, pc: Pc)
    requires Inv(n, w) && t in w.s.pc && Progress(n, w, t, pc) && Role(n, w, t, pc)
    requires In(w.s.pc[t]) == In(pc) && !pc.Reset? && Plain(w.s.pc[t])
    requires pc.AsleepOld? ==> w.s.release
    requires pc.AsleepNew? ==> !w.s.release
    ensures Inv(n, w.(s := MoveTo(w.s, t, pc)))
  {
    MovesPcs(n, w, t, pc);
    MovesCounts(n, w, t, pc);
    MovesPhases(n, w, t, pc);
    MovesSleepers(w.s, t, pc);
  }

  lemma SubsetSize(a: set<Tid>, b: set<Tid>)
    requires a <= b
    ensures |a| <= |b|
    ensures |a| == |b| ==> a == b
  {
    assert b == a + (b - a);
  }

  /** A thread that is not inside leaves room for itself. */
  lemma RoomFor(n: nat, w: World, t: Tid)
    requires CountsOk(n, w) && t in w.s.pc && !In(w.s.pc[t])
    ensures w.s.waitCount < n
  {
    SubsetSize(Where(w.s.pc, In), w.s.pc.Keys - {t});
  }

  predicate Moving(pc: Pc) {
    pc.Check? || pc.GoSleepOld? || pc.Await? || pc.GoSleepNew?
  }

  /** Where the steps that touch no shared word lead. */
  function Onward(s: State, pc: Pc): Pc {
    match pc
    case Idle => Check
    case Check => if s.release then GoSleepOld else LoadCount
    case GoSleepOld => if s.release then AsleepOld else Check
    case Await => if s.release then Leave(false) else GoSleepNew
    case GoSleepNew => if s.release then Await else AsleepNew
    case _ => Awake(pc)
  }

  lemma OnwardOk(n: nat, w: World, t: Tid, pc: Pc)
    requires Progress(n, w, t, pc) && Role(n, w, t, pc) && CountsOk(n, w) && t in w.s.pc
    requires Moving(pc) || pc.Idle? || IsAsleep(pc)
    ensures Progress(n, w, t, Onward(w.s, pc)) && Role(n, w, t, Onward(w.s, pc))
  {
    assert w.s.release ==> Count(w.h.entered, t) >= w.h.reopened + 1;
  }

  lemma MovingStep(n: nat, w: World, a: Action)
    requires Inv(n, w) && Enabled(n, w.s, a)
    requires a.Call? || a.Interrupt? || (a.Run? && Moving(w.s.pc[a.tid]))
    ensures Good(n, w, a)
  {
    var (t, pc) := (a.tid, Onward(w.s, w.s.pc[a.tid]));
    assert Step(n, w, a) == w.(s := MoveTo(w.s, t, pc));
    assert PcOk(n, w, t);
    OnwardOk(n, w, t, w.s.pc[t]);
    Moves(n, w, t, pc);
  }

  lemma AdmitStep(n: nat, w: World, a: Action)
    requires Inv(n, w) && Enabled(n, w.s, a) && a.Run?
    requires w.s.pc[a.tid].LoadCount? || (w.s.pc[a.tid].Cas? && (w.s.waitCount != w.s.pc[a.tid].prev || a.spurious))
    ensures Good(n, w, a)
  {
    var t := a.tid;
    assert PcOk(n, w, t);
    RoomFor(n, w, t);
    assert Step(n, w, a) == w.(s := MoveTo(w.s, t, Cas(w.s.waitCount)));
    Moves(n, w, t, Cas(w.s.waitCount));
  }

  /** Whether a thread that is not inside has entered the current cycle. */
  lemma NotInIsBehind(n: nat, w: World, u: Tid)
    requires PcsOk(n, w) && u in w.s.pc && !In(w.s.pc[u]) && !w.s.release && n > 1
    ensures Count(w.h.entered, u) == w.h.reopened
  {
    assert PcOk(n, w, u);
  }

  /** The cycle fills up exactly when the last thread gets in. */
  lemma FillsUp(n: nat, w: World, t: Tid)
    requires PcsOk(n, w) && CountsOk(n, w) && t in w.s.pc && w.s.pc[t].Cas? && w.s.waitCount == w.s.pc[t].prev
    ensures var h' := w.h.(entered := w.h.entered[t := Count(w.h.entered, t) + 1]);
            AllEntered(w.s.pc.Keys, h', w.h.reopened + 1) <==> w.s.waitCount + 1 == n
  {
    var h' := w.h.(entered := w.h.entered[t := Count(w.h.entered, t) + 1]);
    assert PcOk(n, w, t);
    var inside := Where(w.s.pc, In) + {t};
    assert |inside| == w.s.waitCount + 1;
    SubsetSize(inside, w.s.pc.Keys);
    if w.s.waitCount + 1 == n {
      forall u | u in w.s.pc ensures Count(h'.entered, u) >= w.h.reopened + 1 {
        assert u in inside;
        assert u != t ==> PcOk(n, w, u);
      }
    } else {
      assert w.s.pc.Keys - inside != {};
      var u :| u in w.s.pc.Keys - inside;
      assert n > 1;
      NotInIsBehind(n, w, u);
      assert Count(h'.entered, u) == w.h.reopened;
    }
  }

  /** The state in which thread `t` has just been counted in. */
  ghost function EnterPc(n: nat, prev: nat): Pc {
    if prev + 1 != n then Await else if prev != 0 then Publish(prev) else Leave(true)
  }

  ghost function EnterWorld(n: nat, w: World, t: Tid): World
    requires t in w.s.pc && w.s.pc[t].Cas?
  {
    World(MoveTo(w.s.(waitCount := w.s.waitCount + 1), t, EnterPc(n, w.s.waitCount)),
      After(w.s.pc.Keys, w.h, t, Entered))
  }

  ghost predicate Entering(n: nat, w: World, t: Tid) {
    PcsOk(n, w) && CountsOk(n, w) && t in w.s.pc && w.s.pc[t].Cas? && w.s.waitCount == w.s.pc[t].prev
  }

  /** Nobody else can be leaving, releasing or reopening while `t` has not entered. */
  lemma NobodyAhead(n: nat, w: World, t: Tid, u: Tid)
    requires Entering(n, w, t) && u in w.s.pc
    ensures !w.s.release && !Full(w) && w.h.reopened + 1 !in w.h.last && w.s.waitCount < n
    ensures !w.s.pc[u].Publish? && !w.s.pc[u].WakeOthers? && !w.s.pc[u].Leave? && !w.s.pc[u].Reset?
  {
    assert PcOk(n, w, t);
    assert !(Count(w.h.entered, t) >= w.h.reopened + 1);
    RoomFor(n, w, t);
    assert PcOk(n, w, u);
  }

  lemma EnterSelf(n: nat, w: World, t: Tid)
    requires Entering(n, w, t)
    ensures PcOk(n, EnterWorld(n, w, t), t)
  {
    FillsUp(n, w, t);
    NobodyAhead(n, w, t, t);
    assert PcOk(n, w, t);
  }

  lemma EnterOther(n: nat, w: World, t: Tid, u: Tid)
    requires Entering(n, w, t) && u in w.s.pc && u != t
    ensures PcOk(n, EnterWorld(n, w, t), u)
  {
    FillsUp(n, w, t);
    NobodyAhead(n, w, t, u);
    assert PcOk(n, w, t) && PcOk(n, w, u);
  }

  lemma EnterPcs(n: nat, w: World, t: Tid)
    requires Entering(n, w, t)
    ensures PcsOk(n, EnterWorld(n, w, t))
  {
    EnterSelf(n, w, t);
    forall u | u in w.s.pc && u != t ensures PcOk(n, EnterWorld(n, w, t), u) {
      EnterOther(n, w, t, u);
    }
  }

  lemma EnterCounts(n: nat, w: World, t: Tid)
    requires Entering(n, w, t)
    ensures CountsOk(n, EnterWorld(n, w, t))
  {
    var w' := EnterWorld(n, w, t);
    FillsUp(n, w, t);
    NobodyAhead(n, w, t, t);
    assert PcOk(n, w, t);
    WhereUpdate(w.s.pc, t, EnterPc(n, w.s.waitCount), In);
    assert w'.s.pc.Keys == w.s.pc.Keys;
    assert forall u | u in w'.s.pc && w'.s.pc[u].Reset? :: u in w.s.pc && w.s.pc[u].Reset?;
  }

  lemma EnterPhases(n: nat, w: World, t: Tid)
    requires Entering(n, w, t) && PhasesEnd(n, w) && SleepersOwed(w.s)
    ensures PhasesEnd(n, EnterWorld(n, w, t)) && SleepersOwed(EnterWorld(n, w, t).s)
  {
    var w' := EnterWorld(n, w, t);
    FillsUp(n, w, t);
    NobodyAhead(n, w, t, t);
    assert PcOk(n, w, t);
    assert w'.s.pc.Keys == w.s.pc.Keys;
    if Full(w') && n > 1 { assert AtPublish(w'.s.pc[t]); }
    MovesSleepers(w.s, t, EnterPc(n, w.s.waitCount));
  }

  lemma EnterStep(n: nat, w: World, a: Action)
    requires Inv(n, w) && Enabled(n, w.s, a) && a.Run? && Entering(n, w, a.tid) && !a.spurious
    ensures Good(n, w, a)
  {
    assert Step(n, w, a) == EnterWorld(n, w, a.tid);
    EnterPcs(n, w, a.tid);
    EnterCounts(n, w, a.tid);
    EnterPhases(n, w, a.tid);
  }

  // Publishing the release.

  ghost function PublishWorld(w: World, t: Tid): World
    requires t in w.s.pc && w.s.pc[t].Publish?
  {
    w.(s := MoveTo(w.s.(release := true), t, WakeOthers(w.s.pc[t].prev)))
  }

  /** When a thread publishes, all are inside. */
  lemma AllInside(n: nat, w: World, u: Tid)
    requires PcsOk(n, w) && CountsOk(n, w) && w.s.waitCount == n && u in w.s.pc
    ensures In(w.s.pc[u]) && Count(w.h.entered, u) == w.h.reopened + 1
  {
    SubsetSize(Where(w.s.pc, In), w.s.pc.Keys);
    assert u in Where(w.s.pc, In);
    assert PcOk(n, w, u);
  }

  lemma PublishStep(n: nat, w: World, a: Action)
    requires Inv(n, w) && Enabled(n, w.s, a) && a.Run? && w.s.pc[a.tid].Publish?
    ensures Good(n, w, a)
  {
    var t := a.tid;
    var w' := PublishWorld(w, t);
    assert Step(n, w, a) == w';
    assert PcOk(n, w, t);
    forall u | u in w'.s.pc ensures PcOk(n, w', u) {
      AllInside(n, w, u);
      assert PcOk(n, w, u);
    }
    PublishRest(n, w, t);
  }

  lemma PublishRest(n: nat, w: World, t: Tid)
    requires Inv(n, w) && t in w.s.pc && w.s.pc[t].Publish?
    ensures CountsOk(n, PublishWorld(w, t)) && PhasesEnd(n, PublishWorld(w, t)) && SleepersOwed(PublishWorld(w, t).s)
  {
    var w' := PublishWorld(w, t);
    assert PcOk(n, w, t);
    WhereUpdate(w.s.pc, t, w'.s.pc[t], In);
    assert w'.s.pc.Keys == w.s.pc.Keys;
    assert AtWakeOthers(w'.s.pc[t]);
  }

  // Leaving.

  ghost function LeaveWorld(w: World, t: Tid): World
    requires t in w.s.pc && w.s.pc[t].Leave? && w.s.waitCount > 0
  {
    if w.s.waitCount == 1 then w.(s := MoveTo(w.s.(waitCount := 0), t, Reset(w.s.pc[t].serial)))
    else World(MoveTo(w.s.(waitCount := w.s.waitCount - 1), t, Idle),
               After(w.s.pc.Keys, w.h, t, Returned(w.s.pc[t].serial)))
  }

  ghost predicate Exiting(n: nat, w: World, t: Tid) {
    PcsOk(n, w) && CountsOk(n, w) && t in w.s.pc && w.s.pc[t].Leave? && w.s.waitCount > 0
  }

  lemma LeaveSelf(n: nat, w: World, t: Tid)
    requires Exiting(n, w, t)
    ensures PcOk(n, LeaveWorld(w, t), t)
  {
    assert PcOk(n, w, t);
    if n == 1 { OnlyOne(n, w, t); }
  }

  lemma LeaveOther(n: nat, w: World, t: Tid, u: Tid)
    requires Exiting(n, w, t) && u in w.s.pc && u != t
    ensures PcOk(n, LeaveWorld(w, t), u)
  {
    assert PcOk(n, w, t) && PcOk(n, w, u);
    if n == 1 { OnlyOne(n, w, t); }
  }

  lemma LeavePcs(n: nat, w: World, t: Tid)
    requires Exiting(n, w, t)
    ensures PcsOk(n, LeaveWorld(w, t))
  {
    LeaveSelf(n, w, t);
    forall u | u in w.s.pc && u != t ensures PcOk(n, LeaveWorld(w, t), u) {
      LeaveOther(n, w, t, u);
    }
  }

  lemma OnlyOne(n: nat, w: World, t: Tid)
    requires CountsOk(n, w) && n == 1 && t in w.s.pc
    ensures w.s.pc.Keys == {t} && w.s.waitCount <= 1
  {
    SubsetSize({t}, w.s.pc.Keys);
    SubsetSize(Where(w.s.pc, In), w.s.pc.Keys);
  }

  /** A thread at Leave is inside, so nobody is at Reset. */
  lemma LeavingExcludesReset(n: nat, w: World, t: Tid)
    requires PcsOk(n, w) && CountsOk(n, w) && t in w.s.pc && In(w.s.pc[t])
    ensures w.s.waitCount > 0 && forall u | u in w.s.pc :: !w.s.pc[u].Reset?
  {
    assert t in Where(w.s.pc, In);
    forall u | u in w.s.pc ensures !w.s.pc[u].Reset? {
      assert PcOk(n, w, u);
    }
  }

  lemma LeaveCounts(n: nat, w: World, t: Tid)
    requires CountsOk(n, w) && t in w.s.pc && w.s.pc[t].Leave? && w.s.waitCount > 0
    requires forall u | u in w.s.pc :: !w.s.pc[u].Reset?
    ensures CountsOk(n, LeaveWorld(w, t))
  {
    var w' := LeaveWorld(w, t);
    WhereUpdate(w.s.pc, t, w'.s.pc[t], In);
    assert w'.s.pc.Keys == w.s.pc.Keys;
    assert forall u | u in w'.s.pc && w'.s.pc[u].Reset? :: u == t;
  }

  lemma LeavePhases(n: nat, w: World, t: Tid)
    requires PhasesEnd(n, w) && SleepersOwed(w.s) && t in w.s.pc && w.s.pc[t].Leave? && w.s.waitCount > 0
    ensures PhasesEnd(n, LeaveWorld(w, t)) && SleepersOwed(LeaveWorld(w, t).s)
  {
    var w' := LeaveWorld(w, t);
    assert w'.s.pc.Keys == w.s.pc.Keys;
    if w.s.waitCount == 1 { assert AtReset(w'.s.pc[t]); }
    if Any(w.s, AtPublish) { AnyOther(w.s, t, w'.s.pc[t], AtPublish); }
    MovesSleepers(w.s, t, w'.s.pc[t]);
  }

  lemma LeaveIsLegal(n: nat, w: World, t: Tid)
    requires PcsOk(n, w) && CountsOk(n, w) && t in w.s.pc && w.s.pc[t].Leave?
    ensures Legal(w.s.pc.Keys, w.h, t, Returned(w.s.pc[t].serial))
  {
    assert PcOk(n, w, t);
  }

  lemma LeaveStep(n: nat, w: World, a: Action)
    requires Inv(n, w) && Enabled(n, w.s, a) && a.Run? && w.s.pc[a.tid].Leave?
    ensures Good(n, w, a)
  {
    var t := a.tid;
    LeavingExcludesReset(n, w, t);
    assert Step(n, w, a) == LeaveWorld(w, t);
    LeaveIsLegal(n, w, t);
    LeavePcs(n, w, t);
    LeaveCounts(n, w, t);
    LeavePhases(n, w, t);
  }

  // Reopening.

  ghost function ResetWorld(w: World, t: Tid): World
    requires t in w.s.pc && w.s.pc[t].Reset?
  {
    World(MoveTo(w.s.(release := false), t, WakeNext(w.s.pc[t].serial)), After(w.s.pc.Keys, w.h, t, Reopened))
  }

  /** When the last thread reopens the barrier, all others are outside and even. */
  lemma OthersOutside(n: nat, w: World, t: Tid, u: Tid)
    requires PcsOk(n, w) && CountsOk(n, w) && t in w.s.pc && w.s.pc[t].Reset? && u in w.s.pc && u != t
    ensures Outside(w.s.pc[u])
    ensures Count(w.h.entered, u) == Count(w.h.returned, u) == w.h.reopened + 1
  {
    assert PcOk(n, w, t);
    assert w.s.waitCount == 0;
    assert u !in Where(w.s.pc, In);
    assert Full(w);
    assert Count(w.h.entered, u) >= w.h.reopened + 1;
    assert PcOk(n, w, u);
  }

  lemma ResetPcs(n: nat, w: World, t: Tid)
    requires PcsOk(n, w) && CountsOk(n, w) && t in w.s.pc && w.s.pc[t].Reset?
    ensures PcsOk(n, ResetWorld(w, t))
  {
    var w' := ResetWorld(w, t);
    assert PcOk(n, w, t);
    forall u | u in w'.s.pc ensures PcOk(n, w', u) {
      if u != t { OthersOutside(n, w, t, u); }
    }
  }

  lemma ResetCounts(n: nat, w: World, t: Tid)
    requires PcsOk(n, w) && CountsOk(n, w) && t in w.s.pc && w.s.pc[t].Reset?
    ensures CountsOk(n, ResetWorld(w, t)) && !Full(ResetWorld(w, t))
  {
    var w' := ResetWorld(w, t);
    WhereUpdate(w.s.pc, t, w'.s.pc[t], In);
    assert w'.s.pc.Keys == w.s.pc.Keys;
    assert PcOk(n, w, t);
    assert !(Count(w'.h.entered, t) >= w'.h.reopened + 1);
    assert forall u | u in w'.s.pc :: !w'.s.pc[u].Reset?;
  }

  lemma ResetStep(n: nat, w: World, a: Action)
    requires Inv(n, w) && Enabled(n, w.s, a) && a.Run? && w.s.pc[a.tid].Reset?
    ensures Good(n, w, a)
  {
    var (t, w') := (a.tid, ResetWorld(w, a.tid));
    assert Step(n, w, a) == w';
    ResetPcs(n, w, t);
    ResetCounts(n, w, t);
    assert AtWakeNext(w'.s.pc[t]);
  }

  // Waking.

  /** Either futex_wake reaches every sleeper. */
  lemma WakesEverybody(n: nat, w: World, a: Action)
    requires PcsOk(n, w) && CountsOk(n, w) && Enabled(n, w.s, a) && a.Wake?
    ensures a.woken == Sleepers(w.s)
  {
    assert PcOk(n, w, a.tid);
    SubsetSize(Sleepers(w.s), w.s.pc.Keys - {a.tid});
    SubsetSize(a.woken, Sleepers(w.s));
  }

  ghost function WokenWorld(w: World): World {
    w.(s := w.s.(pc := WakeAll(w.s.pc, Sleepers(w.s))))
  }

  lemma WokenPcs(n: nat, w: World)
    requires PcsOk(n, w)
    ensures PcsOk(n, WokenWorld(w))
  {
    var w' := WokenWorld(w);
    forall u | u in w'.s.pc ensures PcOk(n, w', u) {
      assert PcOk(n, w, u);
    }
  }

  lemma WokenCounts(n: nat, w: World)
    requires CountsOk(n, w)
    ensures CountsOk(n, WokenWorld(w))
  {
    var w' := WokenWorld(w);
    assert Where(w'.s.pc, In) == Where(w.s.pc, In);
    assert w'.s.pc.Keys == w.s.pc.Keys;
  }

  lemma WokenPhases(n: nat, w: World)
    requires PhasesEnd(n, w)
    ensures PhasesEnd(n, WokenWorld(w)) && forall u | u in w.s.pc :: !IsAsleep(WokenWorld(w).s.pc[u])
  {
    var w' := WokenWorld(w);
    assert w'.s.pc.Keys == w.s.pc.Keys;
    assert forall u | u in w.s.pc && !IsAsleep(w.s.pc[u]) :: w'.s.pc[u] == w.s.pc[u];
  }

  lemma NobodyAsleep(s: State)
    requires forall u | u in s.pc :: !IsAsleep(s.pc[u])
    ensures SleepersOwed(s)
  {
  }

  /** The step from a state in which the sleepers have been woken. */
  ghost function WakerWorld(w: World, t: Tid): World
    requires t in w.s.pc && (w.s.pc[t].WakeOthers? || w.s.pc[t].WakeNext?)
  {
    var (pc, e) := AfterWake(w.s.pc[t]);
    World(MoveTo(w.s, t, pc), After(w.s.pc.Keys, w.h, t, e))
  }

  lemma WakerPcs(n: nat, w: World, t: Tid)
    requires PcsOk(n, w) && CountsOk(n, w) && t in w.s.pc && (w.s.pc[t].WakeOthers? || w.s.pc[t].WakeNext?)
    ensures PcsOk(n, WakerWorld(w, t))
  {
    var w' := WakerWorld(w, t);
    assert PcOk(n, w, t);
    forall u | u in w'.s.pc ensures PcOk(n, w', u) {
      assert PcOk(n, w, u);
    }
  }

  lemma WakerCounts(n: nat, w: World, t: Tid)
    requires CountsOk(n, w) && t in w.s.pc && (w.s.pc[t].WakeOthers? || w.s.pc[t].WakeNext?)
    ensures CountsOk(n, WakerWorld(w, t))
  {
    MovesCounts(n, w, t, AfterWake(w.s.pc[t]).0);
  }

  lemma WakerPhases(n: nat, w: World, t: Tid)
    requires PhasesEnd(n, w) && t in w.s.pc && (w.s.pc[t].WakeOthers? || w.s.pc[t].WakeNext?)
    ensures PhasesEnd(n, WakerWorld(w, t))
  {
    var pc := AfterWake(w.s.pc[t]).0;
    assert MoveTo(w.s, t, pc).pc.Keys == w.s.pc.Keys;
    if Any(w.s, AtReset) { AnyOther(w.s, t, pc, AtReset); }
    if Any(w.s, AtPublish) { AnyOther(w.s, t, pc, AtPublish); }
  }

  lemma WakerIsLegal(n: nat, w: World, t: Tid)
    requires PcsOk(n, w) && CountsOk(n, w) && t in w.s.pc && w.s.pc[t].WakeNext?
    ensures Legal(w.s.pc.Keys, w.h, t, Returned(w.s.pc[t].serial))
  {
    assert PcOk(n, w, t);
    forall u | u in w.s.pc ensures Count(w.h.entered, u) >= w.h.reopened {
      assert PcOk(n, w, u);
    }
  }

  lemma WakeWorldIs(n: nat, w: World, a: Action)
    requires PcsOk(n, w) && CountsOk(n, w) && Enabled(n, w.s, a) && a.Wake?
    ensures Step(n, w, a) == WakerWorld(WokenWorld(w), a.tid)
  {
    WakesEverybody(n, w, a);
    assert WakeAll(w.s.pc, a.woken).Keys == w.s.pc.Keys;
  }

  lemma WakerInv(n: nat, w: World, t: Tid)
    requires PcsOk(n, w) && CountsOk(n, w) && PhasesEnd(n, w)
    requires t in w.s.pc && (w.s.pc[t].WakeOthers? || w.s.pc[t].WakeNext?)
    requires forall u | u in w.s.pc :: !IsAsleep(w.s.pc[u])
    ensures Inv(n, WakerWorld(w, t))
  {
    WakerPcs(n, w, t);
    WakerCounts(n, w, t);
    WakerPhases(n, w, t);
    NobodyAsleep(WakerWorld(w, t).s);
  }

  lemma WakeInv(n: nat, w: World, t: Tid)
    requires Inv(n, w) && t in w.s.pc && (w.s.pc[t].WakeOthers? || w.s.pc[t].WakeNext?)
    ensures Inv(n, WakerWorld(WokenWorld(w), t))
  {
    assert WokenWorld(w).s.pc[t] == w.s.pc[t];
    WokenPcs(n, w);
    WokenCounts(n, w);
    WokenPhases(n, w);
    WakerInv(n, WokenWorld(w), t);
  }

  lemma WakeStep(n: nat, w: World, a: Action)
    requires Inv(n, w) && Enabled(n, w.s, a) && a.Wake?
    ensures Good(n, w, a)
  {
    WakeIsLegal(n, w, a);
    WakeInv(n, w, a.tid);
    WakeWorldIs(n, w, a);
  }

  lemma WakeIsLegal(n: nat, w: World, a: Action)
    requires PcsOk(n, w) && CountsOk(n, w) && Enabled(n, w.s, a) && a.Wake?
    ensures Legal(w.s.pc.Keys, w.h, a.tid, Do(n, w.s, a).1)
  {
    if w.s.pc[a.tid].WakeNext? { WakerIsLegal(n, w, a.tid); }
  }

  lemma AnyStep(n: nat, w: World, a: Action)
    requires Inv(n, w) && Enabled(n, w.s, a)
    ensures Good(n, w, a)
  {
    var pc := w.s.pc[a.tid];
    if a.Wake? { WakeStep(n, w, a); }
    else if a.Call? || a.Interrupt? || Moving(pc) { MovingStep(n, w, a); }
    else if pc.Leave? { LeaveStep(n, w, a); }
    else if pc.Reset? { ResetStep(n, w, a); }
    else if pc.Publish? { PublishStep(n, w, a); }
    else if pc.Cas? && w.s.waitCount == pc.prev && !a.spurious { EnterStep(n, w, a); }
    else { AdmitStep(n, w, a); }
  }

  // ---------------------------------------------------------------- theorems over every run

  lemma {:induction false} RunKeepsInv(n: nat, ws: seq<World>, acts: seq<Action>, k: nat)
    requires IsRun(n, ws, acts) && k <= |acts|
    ensures Inv(n, ws[k])
  {
    if k == 0 {
      assert Where(ws[0].s.pc, In) == {};
      var t :| t in ws[0].s.pc;
      assert Count(ws[0].h.entered, t) < 1;
    } else {
      RunKeepsInv(n, ws, acts, k - 1);
      assert StepAt(n, ws, acts, k - 1);
      AnyStep(n, ws[k - 1], acts[k - 1]);
    }
  }

  lemma ReachableInv(n: nat, w: World)
    requires Reachable(n, w)
    ensures Inv(n, w)
  {
    var ws, acts :| IsRun(n, ws, acts) && w == ws[|acts|];
    RunKeepsInv(n, ws, acts, |acts|);
  }

  /**
   * No thread returns from its k-th wait before all have entered their k-th, exactly
   * the last to enter a cycle is told it is the serial thread, and EINVAL never happens.
   */
  lemma ReturnsAreLegal(n: nat, w: World, a: Action)
    requires Reachable(n, w) && Enabled(n, w.s, a)
    ensures Legal(w.s.pc.Keys, w.h, a.tid, Do(n, w.s, a).1)
  {
    ReachableInv(n, w);
    AnyStep(n, w, a);
  }

  /** After the release wakeup nobody sleeps for it, and after the reopening wakeup nobody for that. */
  lemma WakeupsLeaveNobody(n: nat, w: World, a: Action)
    requires Reachable(n, w) && Enabled(n, w.s, a) && a.Wake?
    ensures Sleepers(Step(n, w, a).s) == {}
  {
    ReachableInv(n, w);
    WakeWorldIs(n, w, a);
    NobodySleepsOn(n, w, a.tid);
  }

  lemma NobodySleepsOn(n: nat, w: World, t: Tid)
    requires PhasesEnd(n, w) && t in w.s.pc && (w.s.pc[t].WakeOthers? || w.s.pc[t].WakeNext?)
    ensures Sleepers(WakerWorld(WokenWorld(w), t).s) == {}
  {
    WokenPhases(n, w);
  }

  /**
   * If everybody is asleep or outside the functions, then nobody sleeps through a past
   * phase, and whoever sleeps is waiting for a thread that has not entered yet.
   */
  lemma NeverStuck(n: nat, w: World, t: Tid)
    requires Reachable(n, w) && forall u | u in w.s.pc :: w.s.pc[u].Idle? || IsAsleep(w.s.pc[u])
    requires t in w.s.pc && IsAsleep(w.s.pc[t])
    ensures w.s.pc[t].AsleepNew? && !w.s.release
    ensures exists u :: u in w.s.pc && w.s.pc[u].Idle? && Count(w.h.entered, u) < Count(w.h.entered, t)
  {
    ReachableInv(n, w);
    StuckPhase(n, w, t);
    assert PcOk(n, w, t);
    assert !Full(w);
    var u :| u in w.s.pc && Count(w.h.entered, u) < w.h.reopened + 1;
    assert PcOk(n, w, u);
  }

  lemma StuckPhase(n: nat, w: World, t: Tid)
    requires Inv(n, w) && forall u | u in w.s.pc :: w.s.pc[u].Idle? || IsAsleep(w.s.pc[u])
    requires t in w.s.pc && IsAsleep(w.s.pc[t])
    ensures !w.s.release && w.s.pc[t].AsleepNew? && n > 1
  {
    assert forall u | u in Where(w.s.pc, In) :: AtAsleepNew(w.s.pc[u]);
    assert w.s.release ==> Where(w.s.pc, In) == {};
    assert AtAsleepOld(w.s.pc[t]) || AtAsleepNew(w.s.pc[t]);
    assert PcOk(n, w, t);
  }
}
