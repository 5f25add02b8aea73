/** Exclusion, counting and wakeup for every run of the read/write lock. */
module RwLockProof {
  import opened Common
  import opened Threads
  import opened RwLockSpec
  import opened RwLock

  // ---------------------------------------------------------------- runs

  /** The code's state together with the history of who was told they hold the lock. */
  datatype World = World(s: State, h: Holders)

  ghost predicate Start(w: World) {
    Init(w.s) && w.h == Holders(None, multiset{})
  }

  ghost function Step(cfg: Config, w: World, a: Action): World
    requires Enabled(cfg, w.s, w.h, a)
  {
    var (s', e) := Do(cfg, w.s, w.h, a);
    World(s', After(w.h, a.tid, e))
  }

  /** `ws` is what the threads go through when they take `acts` in turn. */
  ghost predicate IsPath(cfg: Config, ws: seq<World>, acts: seq<Action>) {
    && |ws| == |acts| + 1
    && forall i | 0 <= i < |acts| ::
         Enabled(cfg, ws[i].s, ws[i].h, acts[i]) && ws[i + 1] == Step(cfg, ws[i], acts[i])
  }

  /** A path from a fresh lock. */
  ghost predicate IsRun(cfg: Config, ws: seq<World>, acts: seq<Action>) {
    IsPath(cfg, ws, acts) && Start(ws[0])
  }

  ghost predicate Reachable(cfg: Config, w: World) {
    exists ws, acts :: IsRun(cfg, ws, acts) && w == ws[|acts|]
  }

  // ---------------------------------------------------------------- invariant

  predicate InQueue(pc: Pc, role: Role) {
    (pc.Prepared? || pc.Asleep? || pc.Dequeue?) && pc.role == role
  }

  ghost function Queue(s: State, role: Role): set<Tid> {
    Where(s.pc, pc => InQueue(pc, role))
  }

  /** The state word says exactly who holds the lock and whether anyone is queued. */
  ghost predicate WordOk(w: World) {
    && w.s.word.readers == |w.h.readers| <= MAX_READERS
    && (w.s.word.writer <==> w.h.writer.Some?)
    && (w.h.writer.Some? ==> w.h.readers == multiset{})
    && w.s.pending.rd == |Queue(w.s, Reader)|
    && w.s.pending.wr == |Queue(w.s, Writer)|
    && (w.s.word.pendingReaders <==> w.s.pending.rd > 0)
    && (w.s.word.pendingWriters <==> w.s.pending.wr > 0)
  }

  /** writer_tid names the writer, except just after the flag is set and just before it is cleared. */
  ghost predicate TidOk(w: World) {
    && (w.s.writerTid != 0 ==> w.h.writer == Some(w.s.writerTid))
    && (w.h.writer.Some? ==>
          && w.h.writer.value in w.s.pc
          && var pc := w.s.pc[w.h.writer.value];
             (w.s.writerTid == 0 <==> pc.StoreTid? || pc.UAnd?))
  }

  /** What a thread's program counter implies. */
  ghost predicate PcOk(w: World, t: Tid, pc: Pc) {
    && (pc.StoreTid? || pc.UClear? || pc.UAnd? ==> w.h.writer == Some(t))
    && (pc.USub? ==> t in w.h.readers)
    && (pc.UTid? ==> t !in w.h.readers)
    && (pc.Cas? ==> pc.seen.readers < MAX_READERS && !pc.seen.writer && (pc.role.Writer? ==> pc.seen.readers == 0))
    && (pc.Prepared? ==> pc.serial <= w.s.serial.Get(pc.role))
  }

  ghost predicate PcsOk(w: World) {
    && (forall t | t in w.s.pc :: PcOk(w, t, w.s.pc[t]))
    && forall t | t in w.h.readers :: t in w.s.pc
  }

  ghost predicate Safe(w: World) {
    WordOk(w) && TidOk(w) && PcsOk(w)
  }

  ghost function Event(cfg: Config, w: World, a: Action): RwLockSpec.Event
    requires Enabled(cfg, w.s, w.h, a)
  {
    Do(cfg, w.s, w.h, a).1
  }

  ghost predicate Good(cfg: Config, w: World, a: Action)
    requires Enabled(cfg, w.s, w.h, a)
  {
    && Legal(cfg.writersFirst, w.h, Queue(w.s, Writer), a.tid, Event(cfg, w, a))
    && Safe(Step(cfg, w, a))
  }

  lemma QueueMove(s: State, t: Tid, pc: Pc, role: Role)
    requires t in s.pc
    ensures |Where(s.pc[t := pc], pc => InQueue(pc, role))|
         == |Queue(s, role)| - One(InQueue(s.pc[t], role)) + One(InQueue(pc, role))
  {
    WhereUpdate(s.pc, t, pc, pc => InQueue(pc, role));
  }

  ghost predicate InQueueAlike(p: Pc, q: Pc) {
    InQueue(p, Reader) == InQueue(q, Reader) && InQueue(p, Writer) == InQueue(q, Writer)
  }

  /** A step that only moves its thread keeps the invariant if the new program point is justified. */
  lemma SafeMove(w: World, t: Tid, pc: Pc)
    requires Safe(w) && t in w.s.pc && InQueueAlike(w.s.pc[t], pc) && PcOk(w, t, pc)
    requires !w.s.pc[t].StoreTid? && !w.s.pc[t].UAnd? && !pc.StoreTid? && !pc.UAnd?
    ensures Safe(w.(s := MoveTo(w.s, t, pc)))
  {
    QueueMove(w.s, t, pc, Reader);
    QueueMove(w.s, t, pc, Writer);
  }

  lemma SafeTest(cfg: Config, w: World, t: Tid, role: Role, call: Call, fast: bool, badTime: bool)
    requires Safe(w) && t in w.s.pc && (w.s.pc[t].Load? || w.s.pc[t].Cas?)
    ensures var (pc, e) := Test(cfg, role, call, fast, badTime, w.s.word);
            && Safe(w.(s := MoveTo(w.s, t, pc))) && After(w.h, t, e) == w.h
            && Legal(cfg.writersFirst, w.h, Queue(w.s, Writer), t, e)
  {
    var (pc, e) := Test(cfg, role, call, fast, badTime, w.s.word);
    SafeMove(w, t, pc);
  }

  lemma SafeAcquire(w: World, t: Tid)
    requires Safe(w) && t in w.s.pc && w.s.pc[t].Cas? && w.s.word == w.s.pc[t].seen
    ensures var role := w.s.pc[t].role;
            && Safe(World(MoveTo(w.s.(word := Acquire(role, w.s.word)), t, if role.Reader? then Idle else StoreTid),
                       After(w.h, t, Acquired(role))))
  {
    var pc := if w.s.pc[t].role.Reader? then Idle else StoreTid;
    QueueMove(w.s, t, pc, Reader);
    QueueMove(w.s, t, pc, Writer);
  }

  lemma SafeTid(w: World, t: Tid)
    requires Safe(w) && t in w.s.pc && (w.s.pc[t].StoreTid? || w.s.pc[t].UClear?)
    ensures w.s.pc[t].StoreTid? ==> Safe(w.(s := MoveTo(w.s.(writerTid := t), t, Idle)))
    ensures w.s.pc[t].UClear? ==> Safe(w.(s := MoveTo(w.s.(writerTid := 0), t, UAnd)))
  {
    var pc := if w.s.pc[t].StoreTid? then Idle else UAnd;
    QueueMove(w.s, t, pc, Reader);
    QueueMove(w.s, t, pc, Writer);
  }

  lemma SafeRelease(w: World, t: Tid)
    requires Safe(w) && t in w.s.pc && (w.s.pc[t].UAnd? || w.s.pc[t].USub?)
    ensures w.s.pc[t].USub? ==> 0 < w.s.word.readers
    ensures w.s.pc[t].UAnd? ==>
      Safe(World(MoveTo(w.s.(word := w.s.word.(writer := false)), t, if w.s.word.AnyPending() then UPick else Idle),
                 After(w.h, t, Released(Writer))))
    ensures w.s.pc[t].USub? ==>
      Safe(World(MoveTo(w.s.(word := w.s.word.(readers := w.s.word.readers - 1)), t,
                        if w.s.word.readers == 1 && w.s.word.AnyPending() then UPick else Idle),
                 After(w.h, t, Released(Reader))))
  {
    QueueMove(w.s, t, Idle, Reader);
    QueueMove(w.s, t, Idle, Writer);
    QueueMove(w.s, t, UPick, Reader);
    QueueMove(w.s, t, UPick, Writer);
    if w.s.pc[t].USub? {
      assert w.h.readers == (w.h.readers - multiset{t}) + multiset{t};
    }
  }

  lemma SafeEnqueue(cfg: Config, w: World, t: Tid)
    requires Safe(w) && t in w.s.pc && w.s.pc[t].Enqueue?
    ensures Safe(w.(s := Next(cfg, w.s, t, false, false).0))
  {
    var s' := Next(cfg, w.s, t, false, false).0;
    QueueMove(w.s, t, s'.pc[t], Reader);
    QueueMove(w.s, t, s'.pc[t], Writer);
  }

  lemma SafeDequeue(w: World, t: Tid, pc: Pc)
    requires Safe(w) && t in w.s.pc && w.s.pc[t].Dequeue? && (pc.Idle? || pc.Load?)
    ensures Safe(w.(s := MoveTo(LeaveQueue(w.s, w.s.pc[t].role), t, pc)))
  {
    assert t in Queue(w.s, w.s.pc[t].role);
    QueueMove(w.s, t, pc, Reader);
    QueueMove(w.s, t, pc, Writer);
  }

  lemma SafePick(w: World, t: Tid, serial: PerRole, pc: Pc)
    requires Safe(w) && t in w.s.pc && w.s.pc[t].UPick? && (pc.UWakeOne? || pc.UWakeAll? || pc.Idle?)
    requires w.s.serial.rd <= serial.rd && w.s.serial.wr <= serial.wr
    ensures Safe(w.(s := MoveTo(w.s.(serial := serial), t, pc)))
  {
    QueueMove(w.s, t, pc, Reader);
    QueueMove(w.s, t, pc, Writer);
  }

  lemma SafeWakeReaders(w: World)
    requires Safe(w)
    ensures Safe(w.(s := w.s.(pc := WakeReaders(w.s.pc))))
  {
    var s' := w.s.(pc := WakeReaders(w.s.pc));
    assert Queue(s', Reader) == Queue(w.s, Reader);
    assert Queue(s', Writer) == Queue(w.s, Writer);
  }

  lemma SafeTesting(cfg: Config, w: World, a: Action)
    requires Safe(w) && Enabled(cfg, w.s, w.h, a) && a.Run?
    requires w.s.pc[a.tid].Load? || (w.s.pc[a.tid].Cas? && (w.s.word != w.s.pc[a.tid].seen || a.spurious))
    ensures Good(cfg, w, a)
  {
    var pc := w.s.pc[a.tid];
    SafeTest(cfg, w, a.tid, pc.role, pc.call, pc.fast, a.badTime);
  }

  lemma SafeAcquiring(cfg: Config, w: World, a: Action)
    requires Safe(w) && Enabled(cfg, w.s, w.h, a) && a.Run? && !a.spurious
    requires w.s.pc[a.tid].Cas? && w.s.word == w.s.pc[a.tid].seen
    ensures Good(cfg, w, a)
  {
    SafeAcquire(w, a.tid);
  }

  lemma SafeTrying(cfg: Config, w: World, a: Action)
    requires Safe(w) && Enabled(cfg, w.s, w.h, a) && a.Run?
    requires w.s.pc[a.tid].Load? || w.s.pc[a.tid].Cas?
    ensures Good(cfg, w, a)
  {
    var pc := w.s.pc[a.tid];
    if pc.Cas? && w.s.word == pc.seen && !a.spurious { SafeAcquiring(cfg, w, a); } else { SafeTesting(cfg, w, a); }
  }

  lemma SafeMoving(cfg: Config, w: World, a: Action)
    requires Safe(w) && Enabled(cfg, w.s, w.h, a) && a.Run?
    requires w.s.pc[a.tid].Self? || w.s.pc[a.tid].Recheck? || w.s.pc[a.tid].Prepared? || w.s.pc[a.tid].UWakeOne?
    ensures Good(cfg, w, a)
  {
    SafeMove(w, a.tid, Step(cfg, w, a).s.pc[a.tid]);
  }

  lemma SafeQueueing(cfg: Config, w: World, a: Action)
    requires Safe(w) && Enabled(cfg, w.s, w.h, a) && a.Run?
    requires w.s.pc[a.tid].StoreTid? || w.s.pc[a.tid].Enqueue? || w.s.pc[a.tid].Dequeue?
    ensures Good(cfg, w, a)
  {
    var t := a.tid;
    match w.s.pc[t]
    case StoreTid => SafeTid(w, t);
    case Enqueue(_, _) => SafeEnqueue(cfg, w, t);
    case Dequeue(_, _, _) => SafeDequeue(w, t, Step(cfg, w, a).s.pc[t]);
  }

  lemma SafeUnlocking(cfg: Config, w: World, a: Action)
    requires Safe(w) && Enabled(cfg, w.s, w.h, a) && a.Run?
    requires w.s.pc[a.tid].ULoad? || w.s.pc[a.tid].UTid?
    ensures Good(cfg, w, a)
  {
    SafeMove(w, a.tid, Step(cfg, w, a).s.pc[a.tid]);
  }

  lemma SafeReleasing(cfg: Config, w: World, a: Action)
    requires Safe(w) && Enabled(cfg, w.s, w.h, a) && a.Run?
    requires w.s.pc[a.tid].UClear? || w.s.pc[a.tid].UAnd? || w.s.pc[a.tid].USub?
    ensures Good(cfg, w, a)
  {
    if w.s.pc[a.tid].UClear? { SafeTid(w, a.tid); } else { SafeRelease(w, a.tid); }
  }

  lemma SafeWaking(cfg: Config, w: World, a: Action)
    requires Safe(w) && Enabled(cfg, w.s, w.h, a) && a.Run?
    requires w.s.pc[a.tid].UPick? || w.s.pc[a.tid].UWakeAll?
    ensures Good(cfg, w, a)
  {
    var (t, w') := (a.tid, Step(cfg, w, a));
    if w.s.pc[t].UPick? {
      SafePick(w, t, w'.s.serial, w'.s.pc[t]);
    } else {
      SafeWakeReaders(w);
      SafeMove(w.(s := w.s.(pc := WakeReaders(w.s.pc))), t, Idle);
    }
  }

  lemma SafeRun(cfg: Config, w: World, a: Action)
    requires Safe(w) && Enabled(cfg, w.s, w.h, a) && a.Run?
    ensures Good(cfg, w, a)
  {
    var pc := w.s.pc[a.tid];
    if pc.Load? || pc.Cas? { SafeTrying(cfg, w, a); }
    else if pc.Self? || pc.Recheck? || pc.Prepared? || pc.UWakeOne? { SafeMoving(cfg, w, a); }
    else if pc.StoreTid? || pc.Enqueue? || pc.Dequeue? { SafeQueueing(cfg, w, a); }
    else if pc.ULoad? || pc.UTid? { SafeUnlocking(cfg, w, a); }
    else if pc.UClear? || pc.UAnd? || pc.USub? { SafeReleasing(cfg, w, a); }
    else { SafeWaking(cfg, w, a); }
  }

  lemma SafeStep(cfg: Config, w: World, a: Action)
    requires Safe(w) && Enabled(cfg, w.s, w.h, a)
    ensures Good(cfg, w, a)
  {
    var t := a.tid;
    match a
    case StartLock(_, _, _) => SafeMove(w, t, Step(cfg, w, a).s.pc[t]);
    case StartUnlock(_) => SafeMove(w, t, ULoad);
    case Run(_, _, _) => SafeRun(cfg, w, a);
    case Wake(_, u) =>
      var pc := Dequeue(Writer, false, w.s.pc[u].call);
      SafeMove(w, u, pc);
      SafeMove(w.(s := MoveTo(w.s, u, pc)), t, Idle);
    case Interrupt(_) => SafeMove(w, t, Step(cfg, w, a).s.pc[t]);
    case Timeout(_, _) => SafeMove(w, t, Step(cfg, w, a).s.pc[t]);
  }

  // ---------------------------------------------------------------- no writer is left asleep

  ghost predicate Any(s: State, p: Pc -> bool) {
    exists t :: t in s.pc && p(s.pc[t])
  }

  /** A thread that will go on to wake somebody, or a writer that will test the lock again. */
  predicate Obliged(pc: Pc) {
    || pc.UPick?
    || ((pc.Load? || pc.Cas?) && pc.role.Writer?)
    || (pc.Dequeue? && pc.role.Writer? && !pc.timedOut)
  }

  /** Bound to sleep, because no wakeup has been issued since it queued up. */
  predicate GoingToSleep(serial: PerRole, role: Role, pc: Pc) {
    pc.Prepared? && pc.role == role && !pc.skip && pc.serial == serial.Get(role)
  }

  predicate Sleeping(role: Role, pc: Pc) {
    pc.Asleep? && pc.role == role
  }

  ghost predicate Covered(s: State) {
    s.word.Held() || Any(s, Obliged)
  }

  ghost predicate WritersCovered(s: State) {
    && (Any(s, pc => GoingToSleep(s.serial, Writer, pc)) ==> Covered(s))
    && (Any(s, pc => Sleeping(Writer, pc)) ==> Covered(s) || Any(s, (pc: Pc) => pc.UWakeOne?))
  }

  /** A queued writer whose futex_wait will return at once. */
  predicate Stale(serial: PerRole, pc: Pc) {
    pc.Prepared? && pc.role.Writer? && (pc.skip || pc.serial != serial.wr)
  }

  predicate Dull(pc: Pc) {
    !pc.UAnd? && !pc.USub? && !pc.UPick? && !pc.UWakeAll?
  }

  /** What every step that neither releases the lock nor issues a wakeup leaves in place. */
  lemma DullStep(cfg: Config, s: State, h: Holders, a: Action)
    requires Enabled(cfg, s, h, a) && Dull(s.pc[a.tid]) && !a.Wake? && !a.Timeout?
    ensures var (s', p, p') := (Do(cfg, s, h, a).0, s.pc[a.tid], Do(cfg, s, h, a).0.pc[a.tid]);
      && s'.pc == s.pc[a.tid := p'] && s'.serial == s.serial
      && (s.word.Held() ==> s'.word.Held())
      && (Obliged(p) || Stale(s.serial, p) || Sleeping(Writer, p) ==> Obliged(p') || s'.word.Held())
      && (GoingToSleep(s.serial, Writer, p') || Sleeping(Writer, p') ==>
            GoingToSleep(s.serial, Writer, p) || s'.word.Held())
      && (p.UWakeOne? ==> !Any(s, pc => Sleeping(Writer, pc)))
  {
  }

  /** Moves that neither drop an obligation nor add a waiting writer. */
  lemma WritersKeep(s: State, s': State, t: Tid)
    requires WritersCovered(s) && t in s.pc && t in s'.pc && s'.pc == s.pc[t := s'.pc[t]]
    requires s'.serial.wr == s.serial.wr
    requires s.word.Held() ==> s'.word.Held()
    requires Obliged(s.pc[t]) ==> Obliged(s'.pc[t]) || s'.word.Held()
    requires GoingToSleep(s.serial, Writer, s'.pc[t]) || Sleeping(Writer, s'.pc[t]) ==>
               GoingToSleep(s.serial, Writer, s.pc[t]) || s'.word.Held()
    requires s.pc[t].UWakeOne? ==> s'.pc[t].UWakeOne? || !Any(s, pc => Sleeping(Writer, pc))
    ensures WritersCovered(s')
  {
    if Any(s, Obliged) {
      var u :| u in s.pc && Obliged(s.pc[u]);
      assert u in s'.pc;
      assert Covered(s');
    }
    assert Covered(s) ==> Covered(s');
    forall u | u in s'.pc && (GoingToSleep(s'.serial, Writer, s'.pc[u]) || Sleeping(Writer, s'.pc[u]))
      ensures Covered(s') || (Sleeping(Writer, s'.pc[u]) && Any(s', (pc: Pc) => pc.UWakeOne?))
    {
      if !Covered(s') {
        assert u in s.pc;
        if u != t {
          assert s.pc[u] == s'.pc[u];
          assert Any(s, (pc: Pc) => pc.UWakeOne?);
          var x :| x in s.pc && s.pc[x].UWakeOne?;
          assert x in s'.pc && s'.pc[x].UWakeOne?;
        }
      }
    }
  }

  /** Nobody is queued in a role whose pending count is zero. */
  lemma NobodyQueued(w: World, role: Role)
    requires Safe(w) && w.s.pending.Get(role) == 0
    ensures forall u | u in w.s.pc :: !InQueue(w.s.pc[u], role)
  {
    assert Queue(w.s, role) == {};
    forall u | u in w.s.pc ensures !InQueue(w.s.pc[u], role) {
      assert u !in Queue(w.s, role);
    }
  }

  lemma WritersRelease(cfg: Config, w: World, a: Action)
    requires Safe(w) && WritersCovered(w.s) && Enabled(cfg, w.s, w.h, a)
    requires a.Run? && (w.s.pc[a.tid].UAnd? || w.s.pc[a.tid].USub?)
    ensures WritersCovered(Step(cfg, w, a).s)
  {
    var s' := Step(cfg, w, a).s;
    if s'.word.Held() {
      WritersKeep(w.s, s', a.tid);
    } else if s'.pc[a.tid].UPick? {
      assert Obliged(s'.pc[a.tid]);
    } else {
      NobodyQueued(w, Writer);
      WritersNone(s');
    }
  }

  lemma WritersNone(s: State)
    requires forall u | u in s.pc :: !GoingToSleep(s.serial, Writer, s.pc[u]) && !Sleeping(Writer, s.pc[u])
    ensures WritersCovered(s)
  {
  }

  lemma WritersPick(cfg: Config, w: World, a: Action)
    requires Safe(w) && WritersCovered(w.s) && Enabled(cfg, w.s, w.h, a)
    requires a.Run? && w.s.pc[a.tid].UPick?
    ensures WritersCovered(Step(cfg, w, a).s)
  {
    var s' := Step(cfg, w, a).s;
    if w.s.pending.wr == 0 {
      NobodyQueued(w, Writer);
      WritersNone(s');
    } else {
      assert a.tid in s'.pc && s'.pc[a.tid].UWakeOne?;
      forall u | u in s'.pc ensures !GoingToSleep(s'.serial, Writer, s'.pc[u]) {
        assert u in w.s.pc && PcOk(w, u, w.s.pc[u]);
      }
    }
  }

  lemma WritersWakeAll(s: State, t: Tid)
    requires WritersCovered(s) && t in s.pc && s.pc[t].UWakeAll?
    ensures WritersCovered(s.(pc := WakeReaders(s.pc)[t := Idle]))
  {
    var s' := s.(pc := WakeReaders(s.pc)[t := Idle]);
    assert forall u | u in s.pc && (Obliged(s.pc[u]) || s.pc[u].UWakeOne?) :: s'.pc[u] == s.pc[u];
    assert Covered(s) ==> Covered(s');
  }

  lemma WritersDull(cfg: Config, w: World, a: Action)
    requires WritersCovered(w.s) && Enabled(cfg, w.s, w.h, a) && Dull(w.s.pc[a.tid]) && !a.Wake? && !a.Timeout?
    ensures WritersCovered(Step(cfg, w, a).s)
  {
    DullStep(cfg, w.s, w.h, a);
    WritersKeep(w.s, Step(cfg, w, a).s, a.tid);
  }

  lemma WritersRun(cfg: Config, w: World, a: Action)
    requires Safe(w) && WritersCovered(w.s) && Enabled(cfg, w.s, w.h, a) && a.Run?
    ensures WritersCovered(Step(cfg, w, a).s)
  {
    var pc := w.s.pc[a.tid];
    if pc.UAnd? || pc.USub? { WritersRelease(cfg, w, a); }
    else if pc.UPick? { WritersPick(cfg, w, a); }
    else if pc.UWakeAll? { WritersWakeAll(w.s, a.tid); }
    else { WritersDull(cfg, w, a); }
  }

  lemma WritersStep(cfg: Config, w: World, a: Action)
    requires Safe(w) && WritersCovered(w.s) && Enabled(cfg, w.s, w.h, a)
    ensures WritersCovered(Step(cfg, w, a).s)
  {
    if a.Run? {
      WritersRun(cfg, w, a);
    } else if a.Wake? {
      assert Obliged(Step(cfg, w, a).s.pc[a.sleeper]);
    } else if a.Timeout? {
      WritersKeep(w.s, Step(cfg, w, a).s, a.tid);
    } else {
      WritersDull(cfg, w, a);
    }
  }

  // ---------------------------------------------------------------- no reader is left asleep

  ghost predicate CoveredByWriters(s: State) {
    || Covered(s)
    || Any(s, pc => Stale(s.serial, pc))
    || (Any(s, (pc: Pc) => pc.UWakeOne?) && Any(s, pc => Sleeping(Writer, pc)))
  }

  ghost predicate NoWriterTimedOut(s: State) {
    forall u | u in s.pc :: !(s.pc[u].Dequeue? && s.pc[u].role.Writer? && s.pc[u].timedOut)
  }

  ghost predicate ReadersCovered(s: State) {
    && (Any(s, pc => GoingToSleep(s.serial, Reader, pc)) ==> CoveredByWriters(s))
    && (Any(s, pc => Sleeping(Reader, pc)) ==> CoveredByWriters(s) || Any(s, (pc: Pc) => pc.UWakeAll?))
  }

  /** As long as writers do not time out, a queued writer is enough to keep everyone covered. */
  lemma QueuedWriterCovers(w: World)
    requires Safe(w) && WritersCovered(w.s) && NoWriterTimedOut(w.s) && w.s.pending.wr > 0
    ensures CoveredByWriters(w.s)
  {
    assert Queue(w.s, Writer) != {};
    var u :| u in Queue(w.s, Writer);
    var pc := w.s.pc[u];
    if pc.Dequeue? {
      assert Obliged(pc);
    } else if pc.Asleep? {
      assert Sleeping(Writer, pc);
    } else {
      assert Stale(w.s.serial, pc) || GoingToSleep(w.s.serial, Writer, pc);
    }
  }

  /** Steps of one thread that leave the writers' obligations in place. */
  lemma CoveredKeep(s: State, s': State, t: Tid)
    requires CoveredByWriters(s) && t in s.pc && t in s'.pc && s'.pc == s.pc[t := s'.pc[t]]
    requires s'.serial.wr == s.serial.wr
    requires s.word.Held() ==> s'.word.Held()
    requires Obliged(s.pc[t]) || Stale(s.serial, s.pc[t]) || Sleeping(Writer, s.pc[t]) ==>
               Obliged(s'.pc[t]) || s'.word.Held()
    requires s.pc[t].UWakeOne? ==> s'.pc[t].UWakeOne? || !Any(s, pc => Sleeping(Writer, pc))
    ensures CoveredByWriters(s')
  {
    if !s'.word.Held() && !Obliged(s'.pc[t]) {
      if Any(s, Obliged) {
        var u :| u in s.pc && Obliged(s.pc[u]);
        assert s'.pc[u] == s.pc[u];
      } else if Any(s, pc => Stale(s.serial, pc)) {
        var u :| u in s.pc && Stale(s.serial, s.pc[u]);
        assert s'.pc[u] == s.pc[u];
      } else {
        var u :| u in s.pc && s.pc[u].UWakeOne?;
        var v :| v in s.pc && Sleeping(Writer, s.pc[v]);
        assert u in s'.pc && s'.pc[u].UWakeOne? && s'.pc[v] == s.pc[v];
      }
    } else if !s'.word.Held() {
      assert Any(s', Obliged);
    }
  }

  /** Moves that add no waiting reader and drop no cover. */
  lemma ReadersKeep(s: State, s': State, t: Tid)
    requires ReadersCovered(s) && t in s.pc && t in s'.pc && s'.pc == s.pc[t := s'.pc[t]]
    requires s'.serial == s.serial
    requires CoveredByWriters(s) ==> CoveredByWriters(s')
    requires GoingToSleep(s.serial, Reader, s'.pc[t]) || Sleeping(Reader, s'.pc[t]) ==>
               GoingToSleep(s.serial, Reader, s.pc[t]) || CoveredByWriters(s')
    requires !s.pc[t].UWakeAll?
    ensures ReadersCovered(s')
  {
    if !CoveredByWriters(s') {
      forall u | u in s'.pc && (GoingToSleep(s'.serial, Reader, s'.pc[u]) || Sleeping(Reader, s'.pc[u]))
        ensures Sleeping(Reader, s'.pc[u]) && Any(s', (pc: Pc) => pc.UWakeAll?)
      {
        if u != t {
          assert s.pc[u] == s'.pc[u];
          assert Any(s, (pc: Pc) => pc.UWakeAll?);
          var x :| x in s.pc && s.pc[x].UWakeAll?;
          assert s'.pc[x] == s.pc[x];
        }
      }
    }
  }

  lemma CoveredSuffices(s: State)
    requires CoveredByWriters(s)
    ensures ReadersCovered(s)
  {
  }

  lemma ReadersNone(s: State)
    requires forall u | u in s.pc :: !GoingToSleep(s.serial, Reader, s.pc[u]) && !Sleeping(Reader, s.pc[u])
    ensures ReadersCovered(s)
  {
  }

  ghost predicate Lively(w: World) {
    Safe(w) && WritersCovered(w.s) && NoWriterTimedOut(w.s) && ReadersCovered(w.s)
  }

  lemma ReadersEnqueue(cfg: Config, w: World, a: Action)
    requires Lively(w) && Enabled(cfg, w.s, w.h, a) && a.Run? && w.s.pc[a.tid].Enqueue? && w.s.pc[a.tid].role.Reader?
    requires !CanAcquire(cfg, Reader, w.s.word)
    ensures ReadersCovered(Step(cfg, w, a).s)
  {
    var s' := Step(cfg, w, a).s;
    if !w.s.word.writer {
      QueuedWriterCovers(w);
      DullStep(cfg, w.s, w.h, a);
      CoveredKeep(w.s, s', a.tid);
    }
    CoveredSuffices(s');
  }

  lemma ReadersDull(cfg: Config, w: World, a: Action)
    requires Lively(w) && Enabled(cfg, w.s, w.h, a) && Dull(w.s.pc[a.tid]) && !a.Wake? && !a.Timeout?
    ensures ReadersCovered(Step(cfg, w, a).s)
  {
    var (s', p) := (Step(cfg, w, a).s, w.s.pc[a.tid]);
    DullStep(cfg, w.s, w.h, a);
    if CoveredByWriters(w.s) {
      CoveredKeep(w.s, s', a.tid);
      CoveredSuffices(s');
    } else if p.Enqueue? && p.role.Reader? && !CanAcquire(cfg, Reader, w.s.word) {
      ReadersEnqueue(cfg, w, a);
    } else {
      ReadersKeep(w.s, s', a.tid);
    }
  }

  lemma ReadersRelease(cfg: Config, w: World, a: Action)
    requires Lively(w) && Enabled(cfg, w.s, w.h, a)
    requires a.Run? && (w.s.pc[a.tid].UAnd? || w.s.pc[a.tid].USub?)
    ensures ReadersCovered(Step(cfg, w, a).s)
  {
    var s' := Step(cfg, w, a).s;
    if s'.word.Held() || s'.pc[a.tid].UPick? {
      assert s'.pc[a.tid].UPick? ==> Obliged(s'.pc[a.tid]);
      CoveredSuffices(s');
    } else {
      NobodyQueued(w, Reader);
      ReadersNone(s');
    }
  }

  lemma ReadersPick(cfg: Config, w: World, a: Action)
    requires Lively(w) && Enabled(cfg, w.s, w.h, a) && a.Run? && w.s.pc[a.tid].UPick?
    ensures ReadersCovered(Step(cfg, w, a).s)
  {
    var w' := Step(cfg, w, a);
    if w.s.pending.wr != 0 {
      SafeStep(cfg, w, a);
      WritersPick(cfg, w, a);
      QueuedWriterCovers(w');
      CoveredSuffices(w'.s);
    } else if w.s.pending.rd != 0 {
      assert a.tid in w'.s.pc && w'.s.pc[a.tid].UWakeAll?;
      forall u | u in w'.s.pc ensures !GoingToSleep(w'.s.serial, Reader, w'.s.pc[u]) {
        assert u in w.s.pc && PcOk(w, u, w.s.pc[u]);
      }
    } else {
      NobodyQueued(w, Reader);
      ReadersNone(w'.s);
    }
  }

  lemma ReadersWakeAll(s: State, t: Tid)
    requires ReadersCovered(s) && t in s.pc && s.pc[t].UWakeAll?
    ensures ReadersCovered(s.(pc := WakeReaders(s.pc)[t := Idle]))
  {
    var s' := s.(pc := WakeReaders(s.pc)[t := Idle]);
    assert forall u | u in s.pc && u != t && !Sleeping(Reader, s.pc[u]) :: s'.pc[u] == s.pc[u];
    assert CoveredByWriters(s) ==> CoveredByWriters(s');
    if !CoveredByWriters(s') {
      forall u | u in s'.pc
        ensures !GoingToSleep(s'.serial, Reader, s'.pc[u]) && !Sleeping(Reader, s'.pc[u])
      {
        assert u in s.pc && !GoingToSleep(s.serial, Reader, s.pc[u]);
      }
    }
  }

  lemma NoWriterTimesOut(cfg: Config, w: World, a: Action)
    requires NoWriterTimedOut(w.s) && Enabled(cfg, w.s, w.h, a) && !cfg.writerTimeouts
    ensures NoWriterTimedOut(Step(cfg, w, a).s)
  {
  }

  lemma ReadersStep(cfg: Config, w: World, a: Action)
    requires Lively(w) && Enabled(cfg, w.s, w.h, a) && !cfg.writerTimeouts
    ensures ReadersCovered(Step(cfg, w, a).s)
  {
    var (s', pc) := (Step(cfg, w, a).s, w.s.pc[a.tid]);
    if a.Wake? {
      assert Obliged(s'.pc[a.sleeper]);
      CoveredSuffices(s');
    } else if a.Timeout? {
      if CoveredByWriters(w.s) { CoveredKeep(w.s, s', a.tid); }
      ReadersKeep(w.s, s', a.tid);
    } else if pc.UAnd? || pc.USub? { ReadersRelease(cfg, w, a); }
    else if pc.UPick? { ReadersPick(cfg, w, a); }
    else if pc.UWakeAll? { ReadersWakeAll(w.s, a.tid); }
    else { ReadersDull(cfg, w, a); }
  }

  // ---------------------------------------------------------------- theorems over every run

  lemma {:induction false} RunIsSafe(cfg: Config, ws: seq<World>, acts: seq<Action>, n: nat)
    requires IsRun(cfg, ws, acts) && n <= |acts|
    ensures Safe(ws[n]) && WritersCovered(ws[n].s)
    ensures !cfg.writerTimeouts ==> Lively(ws[n])
  {
    if n == 0 {
      assert Queue(ws[0].s, Reader) == {} && Queue(ws[0].s, Writer) == {};
    } else {
      RunIsSafe(cfg, ws, acts, n - 1);
      SafeStep(cfg, ws[n - 1], acts[n - 1]);
      WritersStep(cfg, ws[n - 1], acts[n - 1]);
      if !cfg.writerTimeouts {
        NoWriterTimesOut(cfg, ws[n - 1], acts[n - 1]);
        ReadersStep(cfg, ws[n - 1], acts[n - 1]);
      }
    }
  }

  lemma ReachableIsSafe(cfg: Config, w: World)
    requires Reachable(cfg, w)
    ensures Safe(w) && WritersCovered(w.s)
    ensures !cfg.writerTimeouts ==> Lively(w)
  {
    var ws, acts :| IsRun(cfg, ws, acts) && w == ws[|acts|];
    RunIsSafe(cfg, ws, acts, |acts|);
  }

  /**
   * Exclusion and counting: the state word counts the read holders and flags the
   * write holder, never both, and writer_tid names a thread only while it holds the lock.
   */
  lemma Exclusion(cfg: Config, w: World)
    requires Reachable(cfg, w)
    ensures w.s.word.readers == |w.h.readers| <= MAX_READERS
    ensures w.s.word.writer <==> w.h.writer.Some?
    ensures !(w.h.writer.Some? && w.h.readers != multiset{})
    ensures forall t: Tid | w.s.writerTid == t :: w.h.writer == Some(t)
  {
    ReachableIsSafe(cfg, w);
  }

  /** Everything the lock tells a caller is true when it says so. */
  lemma AnswersAreTrue(cfg: Config, w: World, a: Action)
    requires Reachable(cfg, w) && Enabled(cfg, w.s, w.h, a)
    ensures Legal(cfg.writersFirst, w.h, Queue(w.s, Writer), a.tid, Event(cfg, w, a))
  {
    ReachableIsSafe(cfg, w);
    SafeStep(cfg, w, a);
  }

  predicate WakesWriter(pc: Pc) { pc.UWakeOne? }

  predicate WakesReaders(pc: Pc) { pc.UWakeAll? }

  /** The lock is free, somebody sleeps on it, and nobody is left who would wake them. */
  ghost predicate Stranded(w: World, role: Role) {
    && !w.s.word.Held()
    && Any(w.s, pc => Sleeping(role, pc))
    && forall u | u in w.s.pc :: w.s.pc[u].Idle? || w.s.pc[u].Asleep?
  }

  /** A sleeping writer is owed something in every run, timeouts or not. */
  lemma SleepingWriterIsOwed(cfg: Config, w: World, u: Tid)
    requires Reachable(cfg, w) && u in w.s.pc && Sleeping(Writer, w.s.pc[u])
    ensures (w.s.word.Held() && w.s.word.pendingWriters) || Any(w.s, Obliged) || Any(w.s, WakesWriter)
  {
    ReachableIsSafe(cfg, w);
    assert u in Queue(w.s, Writer);
    assert Any(w.s, (pc: Pc) => pc.UWakeOne?) ==> Any(w.s, WakesWriter);
  }

  /** A sleeping reader is owed something in every run in which no queued writer times out. */
  lemma SleepingReaderIsOwed(cfg: Config, w: World, u: Tid)
    requires Reachable(cfg, w) && !cfg.writerTimeouts && u in w.s.pc && Sleeping(Reader, w.s.pc[u])
    ensures || (w.s.word.Held() && w.s.word.pendingReaders)
            || Any(w.s, Obliged) || Any(w.s, WakesReaders)
            || Any(w.s, pc => Stale(w.s.serial, pc))
            || (Any(w.s, WakesWriter) && Any(w.s, pc => Sleeping(Writer, pc)))
  {
    ReachableIsSafe(cfg, w);
    assert u in Queue(w.s, Reader);
    assert Any(w.s, (pc: Pc) => pc.UWakeOne?) ==> Any(w.s, WakesWriter);
    assert Any(w.s, (pc: Pc) => pc.UWakeAll?) ==> Any(w.s, WakesReaders);
  }
}
