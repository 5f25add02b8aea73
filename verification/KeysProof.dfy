/** Thread-specific data behaves like the table, in every run. */
module KeysProof {
  import opened Threads
  import opened KeysSpec
  import opened Keys

  datatype World = World(s: State, h: Table)

  ghost function Step(w: World, a: Action): World
    requires Enabled(w.s, a)
  {
    var (s', e) := Do(w.s, a);
    World(s', After(w.h, a.tid, e))
  }

  ghost predicate StepAt(ws: seq<World>, acts: seq<Action>, i: nat)
    requires i < |acts| && |ws| == |acts| + 1
  {
    Enabled(ws[i].s, acts[i]) && ws[i + 1] == Step(ws[i], acts[i])
  }

  ghost predicate IsRun(ws: seq<World>, acts: seq<Action>) {
    && |ws| == |acts| + 1 && Init(ws[0].s) && ws[0].h == Table(map[], map[])
    && forall i: nat {:trigger StepAt(ws, acts, i)} | i < |acts| :: StepAt(ws, acts, i)
  }

  ghost predicate Reachable(w: World) {
    exists ws, acts :: IsRun(ws, acts) && w == ws[|acts|]
  }

  // ---------------------------------------------------------------- invariant

  /** A thread's cell for a slot holds its value for the slot's current key, if any. */
  ghost predicate CellOk(w: World, t: Tid, i: nat)
    requires Shaped(w.s) && t in w.s.threads && i < KEY_COUNT
  {
    var (c, sq) := (w.s.threads[t].data[i], w.s.seqs[i]);
    && c.serial <= sq
    && (c.serial == 0 || InUse(c.serial))
    && (InUse(sq) ==> Value(w.h, t, Incarnation(i, sq)) == if c.serial == sq then c.data else 0)
    && (InUse(sq) && c.serial == sq ==> !BeingCreated(w.s, i))
  }

  ghost predicate CellsOk(w: World)
    requires Shaped(w.s)
  {
    forall t, i | t in w.s.threads && 0 <= i < KEY_COUNT :: CellOk(w, t, i)
  }

  /** A slot in use has the destructor its key was created with, once that is stored. */
  ghost predicate SlotOk(w: World, i: nat)
    requires Shaped(w.s) && i < KEY_COUNT
  {
    var k := Incarnation(i, w.s.seqs[i]);
    InUse(k.serial) ==> k in w.h.destructors && (BeingCreated(w.s, i) || w.s.destructors[i] == w.h.destructors[k])
  }

  ghost predicate SlotsOk(w: World)
    requires Shaped(w.s)
  {
    && (forall i | 0 <= i < KEY_COUNT :: SlotOk(w, i))
    && (forall k | k in w.h.destructors :: k.slot < KEY_COUNT && k.serial <= w.s.seqs[k.slot])
    && (forall x | x in w.h.values :: x.1.slot < KEY_COUNT && x.1.serial <= w.s.seqs[x.1.slot])
  }

  ghost predicate OpOk(w: World, t: Tid, op: Op)
    requires Shaped(w.s) && OpInRange(op)
  {
    && (op.CreateStore? ==>
          var k := Incarnation(op.slot, w.s.seqs[op.slot]);
          InUse(k.serial) && k in w.h.destructors && w.h.destructors[k] == op.destructor)
    && (op.CreateCas? ==> !InUse(op.seen))
    && (op.DeleteCas? ==> InUse(op.seen))
  }

  ghost predicate OpsOk(w: World)
    requires Shaped(w.s)
  {
    && (forall t | t in w.s.threads :: OpOk(w, t, w.s.threads[t].op))
    && (forall t, u | t in w.s.threads && u in w.s.threads && w.s.threads[t].op.CreateStore? &&
      w.s.threads[u].op.CreateStore?
          && w.s.threads[t].op.slot == w.s.threads[u].op.slot :: t == u)
  }

  /** The thread still holds a value whose live key has a destructor. */
  ghost predicate Leftover(s: State, t: Tid, i: nat)
    requires Shaped(s) && t in s.threads && i < KEY_COUNT
  {
    InUse(s.seqs[i]) && s.threads[t].data[i].serial == s.seqs[i] && s.threads[t].data[i].data != 0 &&
      s.destructors[i] != 0
  }

  ghost predicate NoLeftovers(s: State, t: Tid, below: nat)
    requires Shaped(s) && t in s.threads && below <= KEY_COUNT
  {
    forall i | 0 <= i < below :: !Leftover(s, t, i)
  }

  /** What pthread_key_clean_all has established about the slot it is looking at. */
  ghost predicate SubOk(w: World, i: nat, c: Cell, sub: Sub)
    requires Shaped(w.s) && i < KEY_COUNT
  {
    match sub
    case ReadDestructor(sq) => InUse(sq) && c.serial == sq && c.data != 0
    case Recheck(sq, d) =>
      var k := Incarnation(i, sq);
      && InUse(sq) && c.serial == sq && c.data != 0 && d != 0
      && (w.s.seqs[i] == sq ==> k in w.h.destructors && w.h.destructors[k] == d)
    case _ => true
  }

  ghost predicate CleanOk(w: World, t: Tid)
    requires Shaped(w.s) && t in w.s.threads
  {
    var th := w.s.threads[t];
    && (!th.op.Idle? ==> th.clean.NotExiting? || (th.clean.Cleaning? && th.clean.sub.InDestructor?))
    && match th.clean
       case NotExiting => true
       case Cleaning(_, i, called, sub) =>
         && (called == 0 ==> !sub.InDestructor? && NoLeftovers(w.s, t, i))
         && SubOk(w, i, th.data[i], sub)
       case Finished(quiet) => quiet ==> NoLeftovers(w.s, t, KEY_COUNT)
  }

  ghost predicate CleansOk(w: World)
    requires Shaped(w.s)
  {
    forall t | t in w.s.threads :: CleanOk(w, t)
  }

  ghost predicate Inv(w: World) {
    Shaped(w.s) && CellsOk(w) && SlotsOk(w) && OpsOk(w) && CleansOk(w)
  }

  // ---------------------------------------------------------------- steps of one thread

  /** The same threads are between claiming a slot and storing its destructor. */
  lemma CreationsSame(s: State, t: Tid, th: Thread, i: nat)
    requires t in s.threads && !s.threads[t].op.CreateStore? && !th.op.CreateStore?
    ensures BeingCreated(Put(s, t, th), i) <==> BeingCreated(s, i)
  {
    var s' := Put(s, t, th);
    assert forall u | u in s.threads && u != t :: s'.threads[u] == s.threads[u];
  }

  /** What a step that touches no shared word may change in its own thread. */
  ghost predicate LocalOk(w: World, t: Tid, th: Thread)
    requires Shaped(w.s) && t in w.s.threads && |th.data| == KEY_COUNT && OpInRange(th.op)
  {
    && !w.s.threads[t].op.CreateStore? && !th.op.CreateStore?
    && OpOk(w, t, th.op)
    && (th.clean.Cleaning? ==> th.clean.slot < KEY_COUNT)
    && (forall i | 0 <= i < KEY_COUNT ::
          var (c, c') := (w.s.threads[t].data[i], th.data[i]);
          c'.serial == c.serial &&
            (c'.data == c.data || (c'.data == 0 && !(InUse(w.s.seqs[i]) && c.serial == w.s.seqs[i]))))
  }

  lemma LocalCells(w: World, t: Tid, th: Thread)
    requires Shaped(w.s) && t in w.s.threads && |th.data| == KEY_COUNT && OpInRange(th.op)
    requires CellsOk(w) && LocalOk(w, t, th)
    ensures var w' := w.(s := Put(w.s, t, th)); Shaped(w'.s) && CellsOk(w')
  {
    var w' := w.(s := Put(w.s, t, th));
    forall u, i | u in w'.s.threads && 0 <= i < KEY_COUNT ensures CellOk(w', u, i) {
      assert CellOk(w, u, i);
      CreationsSame(w.s, t, th, i);
    }
  }

  lemma LocalSlots(w: World, t: Tid, th: Thread)
    requires Shaped(w.s) && t in w.s.threads && |th.data| == KEY_COUNT && OpInRange(th.op)
    requires SlotsOk(w) && OpsOk(w) && LocalOk(w, t, th)
    ensures var w' := w.(s := Put(w.s, t, th)); Shaped(w'.s) && SlotsOk(w') && OpsOk(w')
  {
    var w' := w.(s := Put(w.s, t, th));
    forall i | 0 <= i < KEY_COUNT ensures SlotOk(w', i) {
      assert SlotOk(w, i);
      CreationsSame(w.s, t, th, i);
    }
    forall u | u in w'.s.threads ensures OpOk(w', u, w'.s.threads[u].op) {
      assert u != t ==> OpOk(w, u, w.s.threads[u].op);
    }
  }

  lemma LocalCleans(w: World, t: Tid, th: Thread)
    requires Shaped(w.s) && t in w.s.threads && |th.data| == KEY_COUNT && OpInRange(th.op)
    requires CleansOk(w) && LocalOk(w, t, th)
    requires CleanOk(w.(s := Put(w.s, t, th)), t)
    ensures CleansOk(w.(s := Put(w.s, t, th)))
  {
    var w' := w.(s := Put(w.s, t, th));
    forall u | u in w'.s.threads ensures CleanOk(w', u) {
      if u != t {
        assert CleanOk(w, u);
        assert forall i | 0 <= i < KEY_COUNT :: Leftover(w'.s, u, i) <==> Leftover(w.s, u, i);
      }
    }
  }

  lemma LocalStep(w: World, t: Tid, th: Thread)
    requires Inv(w) && t in w.s.threads && |th.data| == KEY_COUNT && OpInRange(th.op) && LocalOk(w, t, th)
    requires CleanOk(w.(s := Put(w.s, t, th)), t)
    ensures Inv(w.(s := Put(w.s, t, th)))
  {
    LocalCells(w, t, th);
    LocalSlots(w, t, th);
    LocalCleans(w, t, th);
  }

  ghost predicate Good(w: World, a: Action)
    requires Enabled(w.s, a)
  {
    Legal(w.s.seqs, w.h, a.tid, Do(w.s, a).1) && Inv(Step(w, a))
  }

  /** Calls and steps that only move the thread's operation along. */
  lemma OpMoves(w: World, t: Tid, op: Op)
    requires Inv(w) && t in w.s.threads && OpInRange(op) && OpOk(w, t, op)
    requires !w.s.threads[t].op.CreateStore? && !op.CreateStore?
    requires op.Idle? || MayCall(w.s.threads[t]) || !w.s.threads[t].op.Idle?
    ensures Inv(w.(s := PutOp(w.s, t, op)))
  {
    var th := w.s.threads[t].(op := op);
    assert CleanOk(w, t);
    assert forall i | 0 <= i < KEY_COUNT :: Leftover(Put(w.s, t, th), t, i) <==> Leftover(w.s, t, i);
    LocalStep(w, t, th);
  }

  lemma StartStep(w: World, a: Action)
    requires Inv(w) && Enabled(w.s, a)
    requires a.StartCreate? || a.StartDelete? || a.StartGet? || a.StartSet?
    ensures Good(w, a)
  {
    var s' := Do(w.s, a).0;
    if s' != w.s {
      OpMoves(w, a.tid, s'.threads[a.tid].op);
      assert Step(w, a) == w.(s := PutOp(w.s, a.tid, s'.threads[a.tid].op));
    } else {
      assert Step(w, a) == w;
    }
  }

  lemma ReadStep(w: World, a: Action)
    requires Inv(w) && Enabled(w.s, a) && a.RunOp?
    requires var op := w.s.threads[a.tid].op;
             op.CreateLoad? || op.DeleteLoad? || (op.CreateCas? && (w.s.seqs[op.slot] != op.seen || a.spurious))
             || (op.DeleteCas? && w.s.seqs[op.slot] != op.seen) || (op.SetLoad? && !InUse(w.s.seqs[op.slot]))
    ensures Good(w, a)
  {
    var op := Do(w.s, a).0.threads[a.tid].op;
    assert OpOk(w, a.tid, w.s.threads[a.tid].op);
    assert Step(w, a) == w.(s := PutOp(w.s, a.tid, op));
    OpMoves(w, a.tid, op);
  }

  lemma GetStep(w: World, a: Action)
    requires Inv(w) && Enabled(w.s, a) && a.RunOp? && w.s.threads[a.tid].op.GetLoad?
    ensures Good(w, a)
  {
    var (t, th, i) := (a.tid, w.s.threads[a.tid], w.s.threads[a.tid].op.slot);
    var th' := Do(w.s, a).0.threads[t];
    assert CellOk(w, t, i) && CleanOk(w, t);
    assert Step(w, a) == w.(s := Put(w.s, t, th'));
    LocalStep(w, t, th');
  }

  /** Cleaning that goes on to another slot, another round or the end. */
  lemma AdvanceOk(w: World, t: Tid, th: Thread)
    requires Inv(w) && t in w.s.threads && w.s.threads[t].clean.Cleaning? && w.s.threads[t].op.Idle?
    requires th == w.s.threads[t].(clean := Advance(w.s.threads[t].clean))
    requires w.s.threads[t].clean.called == 0 ==> !Leftover(w.s, t, w.s.threads[t].clean.slot)
    ensures Inv(w.(s := Put(w.s, t, th)))
  {
    assert CleanOk(w, t);
    assert forall i | 0 <= i < KEY_COUNT :: Leftover(Put(w.s, t, th), t, i) <==> Leftover(w.s, t, i);
    LocalStep(w, t, th);
  }

  lemma CleanStays(w: World, t: Tid, th: Thread, sub: Sub)
    requires Inv(w) && t in w.s.threads && w.s.threads[t].clean.Cleaning? && w.s.threads[t].op.Idle?
    requires th == w.s.threads[t].(clean := w.s.threads[t].clean.(sub := sub)) && !sub.InDestructor?
    requires SubOk(w, th.clean.slot, th.data[th.clean.slot], sub)
    ensures Inv(w.(s := Put(w.s, t, th)))
  {
    assert CleanOk(w, t);
    assert forall i | 0 <= i < KEY_COUNT :: Leftover(Put(w.s, t, th), t, i) <==> Leftover(w.s, t, i);
    LocalStep(w, t, th);
  }

  lemma CheckStep(w: World, a: Action)
    requires Inv(w) && Enabled(w.s, a) && a.RunClean? && w.s.threads[a.tid].clean.sub.Check?
    ensures Good(w, a)
  {
    var (t, th) := (a.tid, Do(w.s, a).0.threads[a.tid]);
    assert Step(w, a) == w.(s := Put(w.s, t, th));
    if th.clean.Cleaning? && th.clean.sub.ReadDestructor? {
      CleanStays(w, t, th, th.clean.sub);
    } else {
      AdvanceOk(w, t, th);
    }
  }

  lemma ReadDestructorStep(w: World, a: Action)
    requires Inv(w) && Enabled(w.s, a) && a.RunClean? && w.s.threads[a.tid].clean.sub.ReadDestructor?
    ensures Good(w, a)
  {
    var (t, th, i) := (a.tid, Do(w.s, a).0.threads[a.tid], w.s.threads[a.tid].clean.slot);
    assert Step(w, a) == w.(s := Put(w.s, t, th));
    assert CleanOk(w, t) && CellOk(w, t, i) && SlotOk(w, i);
    if w.s.destructors[i] == 0 {
      AdvanceOk(w, t, th);
    } else {
      CleanStays(w, t, th, th.clean.sub);
    }
  }

  lemma MovedOnStep(w: World, a: Action)
    requires Inv(w) && Enabled(w.s, a)
    requires a.DestructorReturns? ||
             (a.RunClean? && w.s.threads[a.tid].clean.sub.Recheck? &&
              w.s.seqs[w.s.threads[a.tid].clean.slot] != w.s.threads[a.tid].clean.sub.serial)
    ensures Good(w, a)
  {
    var (t, th) := (a.tid, Do(w.s, a).0.threads[a.tid]);
    assert Step(w, a) == w.(s := Put(w.s, t, th));
    assert CleanOk(w, t);
    AdvanceOk(w, t, th);
  }

  lemma ExitStep(w: World, a: Action)
    requires Inv(w) && Enabled(w.s, a) && a.StartExit?
    ensures Good(w, a)
  {
    var (t, th) := (a.tid, Do(w.s, a).0.threads[a.tid]);
    assert Step(w, a) == w.(s := Put(w.s, t, th));
    LocalStep(w, t, th);
  }

  // ---------------------------------------------------------------- setting and destroying values

  ghost function PutCell(w: World, t: Tid, i: nat, th: Thread, serial: nat, v: int): World
    requires Shaped(w.s) && t in w.s.threads && i < KEY_COUNT
  {
    World(Put(w.s, t, th.(data := w.s.threads[t].data[i := Cell(serial, v)])),
          w.h.(values := w.h.values[(t, Incarnation(i, serial)) := v]))
  }

  /** Writing a cell and the table together, for the current key of a slot. */
  lemma PutCellOk(w: World, t: Tid, i: nat, th: Thread, v: int)
    requires Inv(w) && t in w.s.threads && i < KEY_COUNT && InUse(w.s.seqs[i]) && !BeingCreated(w.s, i)
    requires !w.s.threads[t].op.CreateStore? && th.op.Idle?
    requires th.clean.NotExiting? ||
      (th.clean.Cleaning? && th.clean.sub.InDestructor? && th.clean.called > 0 && th.clean.slot < KEY_COUNT)
    ensures Inv(PutCell(w, t, i, th, w.s.seqs[i], v))
  {
    var w' := PutCell(w, t, i, th, w.s.seqs[i], v);
    PutCellCells(w, t, i, th, v);
    forall j | 0 <= j < KEY_COUNT ensures SlotOk(w', j) {
      assert SlotOk(w, j);
      CreationsSame(w.s, t, w'.s.threads[t], j);
    }
    forall u | u in w'.s.threads ensures OpOk(w', u, w'.s.threads[u].op) && CleanOk(w', u) {
      if u != t {
        assert OpOk(w, u, w.s.threads[u].op) && CleanOk(w, u);
        assert forall j | 0 <= j < KEY_COUNT :: Leftover(w'.s, u, j) <==> Leftover(w.s, u, j);
      }
    }
  }

  lemma PutCellCells(w: World, t: Tid, i: nat, th: Thread, v: int)
    requires Inv(w) && t in w.s.threads && i < KEY_COUNT && InUse(w.s.seqs[i]) && !BeingCreated(w.s, i)
    requires !w.s.threads[t].op.CreateStore? && th.op.Idle?
    requires th.clean.Cleaning? ==> th.clean.slot < KEY_COUNT
    ensures var w' := PutCell(w, t, i, th, w.s.seqs[i], v); Shaped(w'.s) && CellsOk(w')
  {
    var w' := PutCell(w, t, i, th, w.s.seqs[i], v);
    forall u, j | u in w'.s.threads && 0 <= j < KEY_COUNT ensures CellOk(w', u, j) {
      assert CellOk(w, u, j);
      CreationsSame(w.s, t, w'.s.threads[t], j);
    }
  }

  lemma SetStep(w: World, a: Action)
    requires Inv(w) && Enabled(w.s, a) && a.RunOp? && w.s.threads[a.tid].op.SetLoad?
    requires InUse(w.s.seqs[w.s.threads[a.tid].op.slot])
    ensures Good(w, a)
  {
    var (t, th) := (a.tid, w.s.threads[a.tid].(op := Idle));
    var (i, v) := (w.s.threads[t].op.slot, w.s.threads[t].op.value);
    assert CleanOk(w, t);
    PutCellOk(w, t, i, th, v);
    assert Step(w, a) == PutCell(w, t, i, th, w.s.seqs[i], v);
  }

  lemma DestroyStep(w: World, a: Action)
    requires Inv(w) && Enabled(w.s, a) && a.RunClean? && w.s.threads[a.tid].clean.sub.Recheck?
    requires w.s.seqs[w.s.threads[a.tid].clean.slot] == w.s.threads[a.tid].clean.sub.serial
    ensures Good(w, a)
  {
    var (t, c) := (a.tid, w.s.threads[a.tid].clean);
    var th := w.s.threads[t].(clean := c.(sub := InDestructor, called := c.called + 1));
    assert CleanOk(w, t) && CellOk(w, t, c.slot);
    PutCellOk(w, t, c.slot, th, 0);
    assert Step(w, a) == PutCell(w, t, c.slot, th, w.s.seqs[c.slot], 0);
  }

  // ---------------------------------------------------------------- creating and deleting keys

  /** A slot's sequence number moves on; its old cells and values belong to the past. */
  ghost function Bump(w: World, t: Tid, op: Op, i: nat): World
    requires Shaped(w.s) && t in w.s.threads && i < KEY_COUNT
  {
    w.(s := PutOp(w.s.(seqs := w.s.seqs[i := w.s.seqs[i] + 1]), t, op))
  }

  lemma BumpLeftovers(w: World, t: Tid, op: Op, i: nat, u: Tid, j: nat)
    requires Shaped(w.s) && t in w.s.threads && i < KEY_COUNT && CellsOk(w) && OpInRange(op)
    requires u in w.s.threads && j < KEY_COUNT
    ensures Leftover(Bump(w, t, op, i).s, u, j) ==> Leftover(w.s, u, j)
  {
    assert CellOk(w, u, j);
  }

  lemma BumpCleans(w: World, t: Tid, op: Op, i: nat, h': Table)
    requires Inv(w) && t in w.s.threads && i < KEY_COUNT && !w.s.threads[t].op.Idle? && OpInRange(op)
    requires forall k | k in w.h.destructors && k != Incarnation(i, w.s.seqs[i] + 1) ::
               k in h'.destructors && h'.destructors[k] == w.h.destructors[k]
    ensures CleansOk(Bump(w, t, op, i).(h := h'))
  {
    var w' := Bump(w, t, op, i).(h := h');
    forall u | u in w'.s.threads ensures CleanOk(w', u) {
      assert CleanOk(w, u);
      forall j | 0 <= j < KEY_COUNT ensures Leftover(w'.s, u, j) ==> Leftover(w.s, u, j) {
        BumpLeftovers(w, t, op, i, u, j);
      }
      var c := w.s.threads[u].clean;
      if c.Cleaning? {
        assert CellOk(w, u, c.slot);
      }
    }
  }

  lemma ClaimStep(w: World, a: Action)
    requires Inv(w) && Enabled(w.s, a) && a.RunOp? && !a.spurious && w.s.threads[a.tid].op.CreateCas?
    requires w.s.seqs[w.s.threads[a.tid].op.slot] == w.s.threads[a.tid].op.seen
    ensures Good(w, a)
  {
    var (t, i, d) := (a.tid, w.s.threads[a.tid].op.slot, w.s.threads[a.tid].op.destructor);
    ClaimIs(w, a);
    BumpCleans(w, t, CreateStore(i, d), i, Claimed(w, t, i, d).h);
    ClaimCells(w, t, i, d);
    ClaimSlots(w, t, i, d);
  }

  lemma ClaimIs(w: World, a: Action)
    requires Shaped(w.s) && SlotsOk(w) && OpsOk(w) && Enabled(w.s, a) && a.RunOp? && !a.spurious
    requires w.s.threads[a.tid].op.CreateCas? && w.s.threads[a.tid].op.slot < KEY_COUNT
    requires w.s.seqs[w.s.threads[a.tid].op.slot] == w.s.threads[a.tid].op.seen
    ensures Step(w, a) == Claimed(w, a.tid, w.s.threads[a.tid].op.slot, w.s.threads[a.tid].op.destructor)
    ensures Legal(w.s.seqs, w.h, a.tid, Do(w.s, a).1)
  {
    assert OpOk(w, a.tid, w.s.threads[a.tid].op);
  }

  ghost function Claimed(w: World, t: Tid, i: nat, d: int): World
    requires Shaped(w.s) && t in w.s.threads && i < KEY_COUNT
  {
    Bump(w, t, CreateStore(i, d), i).(h := w.h.(destructors := w.h.destructors[Incarnation(i, w.s.seqs[i] + 1) := d]))
  }

  lemma ClaimCreations(w: World, t: Tid, i: nat, d: int, j: nat)
    requires Shaped(w.s) && t in w.s.threads && w.s.threads[t].op.CreateCas? && i < KEY_COUNT && j < KEY_COUNT
    ensures BeingCreated(Claimed(w, t, i, d).s, j) <==> (j == i || BeingCreated(w.s, j))
  {
    var s' := Claimed(w, t, i, d).s;
    assert s'.threads[t].op == CreateStore(i, d);
    assert forall u | u in w.s.threads && u != t :: s'.threads[u] == w.s.threads[u];
  }

  lemma ClaimCells(w: World, t: Tid, i: nat, d: int)
    requires Inv(w) && t in w.s.threads && w.s.threads[t].op.CreateCas? && i < KEY_COUNT && !InUse(w.s.seqs[i])
    ensures var w' := Claimed(w, t, i, d); Shaped(w'.s) && CellsOk(w')
  {
    var w' := Claimed(w, t, i, d);
    forall u, j | u in w'.s.threads && 0 <= j < KEY_COUNT ensures CellOk(w', u, j) {
      assert CellOk(w, u, j);
      ClaimCreations(w, t, i, d, j);
    }
  }

  lemma ClaimSlots(w: World, t: Tid, i: nat, d: int)
    requires Inv(w) && t in w.s.threads && w.s.threads[t].op.CreateCas? && i < KEY_COUNT && !InUse(w.s.seqs[i])
    ensures var w' := Claimed(w, t, i, d); Shaped(w'.s) && SlotsOk(w') && OpsOk(w')
  {
    var w' := Claimed(w, t, i, d);
    forall j | 0 <= j < KEY_COUNT ensures SlotOk(w', j) {
      assert SlotOk(w, j);
      ClaimCreations(w, t, i, d, j);
    }
    forall u | u in w'.s.threads ensures OpOk(w', u, w'.s.threads[u].op) {
      assert OpOk(w, u, w.s.threads[u].op);
    }
    assert forall u | u in w.s.threads && w.s.threads[u].op.CreateStore? :: OpOk(w, u, w.s.threads[u].op);
  }

  lemma DeleteStep(w: World, a: Action)
    requires Inv(w) && Enabled(w.s, a) && a.RunOp? && w.s.threads[a.tid].op.DeleteCas?
    requires w.s.seqs[w.s.threads[a.tid].op.slot] == w.s.threads[a.tid].op.seen
    ensures Good(w, a)
  {
    var (t, i) := (a.tid, w.s.threads[a.tid].op.slot);
    assert OpOk(w, t, w.s.threads[t].op);
    assert Step(w, a) == Bump(w, t, Idle, i);
    BumpCleans(w, t, Idle, i, w.h);
    DeleteRest(w, t, i);
  }

  lemma DeleteRest(w: World, t: Tid, i: nat)
    requires Inv(w) && t in w.s.threads && w.s.threads[t].op.DeleteCas? && i < KEY_COUNT
    requires InUse(w.s.seqs[i]) && !BeingCreated(w.s, i)
    ensures var w' := Bump(w, t, Idle, i); Shaped(w'.s) && CellsOk(w') && SlotsOk(w') && OpsOk(w')
  {
    var w' := Bump(w, t, Idle, i);
    forall j | 0 <= j < KEY_COUNT ensures BeingCreated(w'.s, j) <==> BeingCreated(w.s, j) {
      CreationsSame(w.s.(seqs := w'.s.seqs), t, w'.s.threads[t], j);
    }
    forall u, j | u in w'.s.threads && 0 <= j < KEY_COUNT ensures CellOk(w', u, j) {
      assert CellOk(w, u, j);
    }
    forall j | 0 <= j < KEY_COUNT ensures SlotOk(w', j) {
      assert SlotOk(w, j);
    }
    forall u | u in w'.s.threads ensures OpOk(w', u, w'.s.threads[u].op) {
      assert OpOk(w, u, w.s.threads[u].op);
    }
  }

  ghost function Named(w: World, t: Tid, i: nat, d: int): World
    requires Shaped(w.s) && t in w.s.threads && i < KEY_COUNT
  {
    w.(s := PutOp(w.s.(destructors := w.s.destructors[i := d]), t, Idle))
  }

  lemma NamedCreations(w: World, t: Tid, i: nat, d: int, j: nat)
    requires Shaped(w.s) && t in w.s.threads && i < KEY_COUNT && w.s.threads[t].op == CreateStore(i, d) && OpsOk(w)
    ensures BeingCreated(w.s, i)
    ensures BeingCreated(Named(w, t, i, d).s, j) <==> (j != i && BeingCreated(w.s, j))
  {
    var s' := Named(w, t, i, d).s;
    assert forall u | u in w.s.threads && u != t :: s'.threads[u] == w.s.threads[u];
  }

  lemma NamedRest(w: World, t: Tid, i: nat, d: int)
    requires Inv(w) && t in w.s.threads && i < KEY_COUNT && w.s.threads[t].op == CreateStore(i, d)
    ensures var w' := Named(w, t, i, d); Shaped(w'.s) && CellsOk(w') && SlotsOk(w') && OpsOk(w')
  {
    var w' := Named(w, t, i, d);
    assert OpOk(w, t, w.s.threads[t].op);
    forall j | 0 <= j < KEY_COUNT ensures SlotOk(w', j) {
      assert SlotOk(w, j);
      NamedCreations(w, t, i, d, j);
    }
    forall u, j | u in w'.s.threads && 0 <= j < KEY_COUNT ensures CellOk(w', u, j) {
      assert CellOk(w, u, j);
      NamedCreations(w, t, i, d, j);
    }
    forall u | u in w'.s.threads ensures OpOk(w', u, w'.s.threads[u].op) {
      assert OpOk(w, u, w.s.threads[u].op);
    }
  }

  lemma NamedCleans(w: World, t: Tid, i: nat, d: int)
    requires Inv(w) && t in w.s.threads && i < KEY_COUNT && w.s.threads[t].op == CreateStore(i, d)
    ensures CleansOk(Named(w, t, i, d))
  {
    var w' := Named(w, t, i, d);
    NamedCreations(w, t, i, d, i);
    forall u | u in w'.s.threads ensures CleanOk(w', u) {
      assert CleanOk(w, u) && CellOk(w, u, i);
      assert forall j | 0 <= j < KEY_COUNT :: Leftover(w'.s, u, j) ==> Leftover(w.s, u, j);
    }
  }

  lemma NameStep(w: World, a: Action)
    requires Inv(w) && Enabled(w.s, a) && a.RunOp? && w.s.threads[a.tid].op.CreateStore?
    ensures Good(w, a)
  {
    var (t, i, d) := (a.tid, w.s.threads[a.tid].op.slot, w.s.threads[a.tid].op.destructor);
    assert Step(w, a) == Named(w, t, i, d);
    NamedRest(w, t, i, d);
    NamedCleans(w, t, i, d);
  }

  // ---------------------------------------------------------------- every step, every run

  lemma OpStep(w: World, a: Action)
    requires Inv(w) && Enabled(w.s, a) && a.RunOp?
    ensures Good(w, a)
  {
    match w.s.threads[a.tid].op
    case CreateLoad(_, _) => ReadStep(w, a);
    case CreateCas(i, _, seen) => if w.s.seqs[i] == seen && !a.spurious { ClaimStep(w, a); } else { ReadStep(w, a); }
    case CreateStore(_, _) => NameStep(w, a);
    case DeleteLoad(_) => ReadStep(w, a);
    case DeleteCas(i, seen) => if w.s.seqs[i] == seen { DeleteStep(w, a); } else { ReadStep(w, a); }
    case GetLoad(_) => GetStep(w, a);
    case SetLoad(i, _) => if InUse(w.s.seqs[i]) { SetStep(w, a); } else { ReadStep(w, a); }
  }

  lemma CleanStep(w: World, a: Action)
    requires Inv(w) && Enabled(w.s, a) && a.RunClean?
    ensures Good(w, a)
  {
    var c := w.s.threads[a.tid].clean;
    match c.sub
    case Check => CheckStep(w, a);
    case ReadDestructor(_) => ReadDestructorStep(w, a);
    case Recheck(serial, _) => if w.s.seqs[c.slot] == serial { DestroyStep(w, a); } else { MovedOnStep(w, a); }
  }

  lemma AnyStep(w: World, a: Action)
    requires Inv(w) && Enabled(w.s, a)
    ensures Good(w, a)
  {
    match a
    case StartExit(_) => ExitStep(w, a);
    case RunOp(_, _) => OpStep(w, a);
    case RunClean(_) => CleanStep(w, a);
    case DestructorReturns(_) => MovedOnStep(w, a);
    case _ => StartStep(w, a);
  }

  lemma StartInv(w: World)
    requires Init(w.s) && w.h == Table(map[], map[])
    ensures Inv(w)
  {
  }

  lemma StepInv(w: World, a: Action, w': World)
    requires Inv(w) && Enabled(w.s, a) && w' == Step(w, a)
    ensures Inv(w')
  {
    AnyStep(w, a);
  }

  lemma {:induction false} RunKeepsInv(ws: seq<World>, acts: seq<Action>, n: nat)
    requires IsRun(ws, acts) && n <= |acts|
    ensures Inv(ws[n])
  {
    if n == 0 {
      StartInv(ws[0]);
    } else {
      RunKeepsInv(ws, acts, n - 1);
      assert StepAt(ws, acts, n - 1);
      StepInv(ws[n - 1], acts[n - 1], ws[n]);
    }
  }

  lemma ReachableInv(w: World)
    requires Reachable(w)
    ensures Inv(w)
  {
    var ws, acts :| IsRun(ws, acts) && w == ws[|acts|];
    RunKeepsInv(ws, acts, |acts|);
  }

  // ---------------------------------------------------------------- theorems

  /**
   * Whatever any function answers, and whatever destructor an exiting thread
   * calls, is what the table says at that moment.
   */
  lemma AnswersAreTrue(w: World, a: Action)
    requires Reachable(w) && Enabled(w.s, a)
    ensures Legal(w.s.seqs, w.h, a.tid, Do(w.s, a).1)
  {
    ReachableInv(w);
    AnyStep(w, a);
  }

  /**
   * A thread whose last round of cleaning called nothing has, from then on, no
   * value left for any live key that has a destructor.
   */
  lemma QuietExitLeavesNothing(w: World, t: Tid, k: Incarnation)
    requires Reachable(w) && t in w.s.threads && w.s.threads[t].clean == Finished(true)
    requires Current(w.s.seqs, k)
    ensures k in w.h.destructors
    ensures Value(w.h, t, k) == 0 || w.h.destructors[k] == 0
  {
    ReachableInv(w);
    assert CleanOk(w, t) && CellOk(w, t, k.slot) && SlotOk(w, k.slot) && !Leftover(w.s, t, k.slot);
  }

  ghost function EventAt(ws: seq<World>, acts: seq<Action>, n: nat): Event
    requires IsRun(ws, acts) && n < |acts|
  {
    assert StepAt(ws, acts, n);
    Do(ws[n].s, acts[n]).1
  }

  /** Step `n` changes the thread's value of the key. */
  ghost predicate Writes(ws: seq<World>, acts: seq<Action>, n: nat, t: Tid, k: Incarnation)
    requires IsRun(ws, acts) && n < |acts|
  {
    var e := EventAt(ws, acts, n);
    acts[n].tid == t && (e.Stored? || e.Destroying?) && e.key == k
  }

  /** The thread stored `v` at step `m` and nothing has written the key since. */
  ghost predicate LastStore(ws: seq<World>, acts: seq<Action>, m: nat, n: nat, t: Tid, k: Incarnation, v: int)
    requires IsRun(ws, acts) && m < n <= |acts|
  {
    && acts[m].tid == t && EventAt(ws, acts, m) == Stored(k, v)
    && forall j: nat | m < j < n :: !Writes(ws, acts, j, t, k)
  }

  lemma ValueAfter(h: Table, u: Tid, e: Event, t: Tid, k: Incarnation)
    ensures Value(After(h, u, e), t, k) ==
            if u == t && e.Stored? && e.key == k then e.value
            else if u == t && e.Destroying? && e.key == k then 0
            else Value(h, t, k)
  {
  }

  lemma {:induction false} ValueWasStored(ws: seq<World>, acts: seq<Action>, n: nat, t: Tid, k: Incarnation)
      returns (m: nat)
    requires IsRun(ws, acts) && n <= |acts| && Value(ws[n].h, t, k) != 0
    ensures m < n && LastStore(ws, acts, m, n, t, k, Value(ws[n].h, t, k))
  {
    var (w, a) := (ws[n - 1], acts[n - 1]);
    assert StepAt(ws, acts, n - 1);
    assert ws[n].h == After(w.h, a.tid, EventAt(ws, acts, n - 1));
    ValueAfter(w.h, a.tid, EventAt(ws, acts, n - 1), t, k);
    if Writes(ws, acts, n - 1, t, k) {
      m := n - 1;
    } else {
      m := ValueWasStored(ws, acts, n - 1, t, k);
    }
  }

  /**
   * pthread_getspecific returns the last value the same thread stored under the
   * same incarnation of the key, never one stored under an earlier key of the slot.
   */
  lemma GetReturnsLastStore(ws: seq<World>, acts: seq<Action>, n: nat, k: Incarnation, v: int)
    requires IsRun(ws, acts) && n < |acts| && EventAt(ws, acts, n) == Got(k, v) && v != 0
    ensures exists m: nat :: m < n && LastStore(ws, acts, m, n, acts[n].tid, k, v)
  {
    RunKeepsInv(ws, acts, n);
    assert StepAt(ws, acts, n);
    AnyStep(ws[n], acts[n]);
    var m := ValueWasStored(ws, acts, n, acts[n].tid, k);
  }

  /** A destructor runs on a stored value, and at most once for each store. */
  lemma DestroyedOncePerStore(ws: seq<World>, acts: seq<Action>, n: nat, k: Incarnation, d: int, v: int)
    requires IsRun(ws, acts) && n < |acts| && EventAt(ws, acts, n) == Destroying(k, d, v)
    ensures exists m: nat :: m < n && LastStore(ws, acts, m, n, acts[n].tid, k, v)
  {
    RunKeepsInv(ws, acts, n);
    assert StepAt(ws, acts, n);
    AnyStep(ws[n], acts[n]);
    var m := ValueWasStored(ws, acts, n, acts[n].tid, k);
  }
}
