// bionic/libc/bionic/pthread_key.cpp: thread-specific data as a transition
// system. One step per access to key_map; accesses to a thread's own key_data
// are part of the step that precedes them.

/** The table a caller thinks of: a value per thread and key incarnation. */
module KeysSpec {
  import opened Threads

  /** The key that lived in `slot` while its sequence number was `serial`. */
  datatype Incarnation = Incarnation(slot: nat, serial: nat)

  datatype Table = Table(values: map<(Tid, Incarnation), int>, destructors: map<Incarnation, int>)

  datatype Event =
    | Quiet
    | Created(key: Incarnation, destructor: int)
    | NoSlot                                       // EAGAIN
    | Deleted(key: Incarnation)
    // Refusals: EINVAL, or NULL from pthread_getspecific.
    | NotAKey(handle: int)
    | Unused(slot: nat)
    | Gone(key: Incarnation)
    | Stored(key: Incarnation, value: int)
    | Got(key: Incarnation, value: int)
    | Destroying(key: Incarnation, destructor: int, value: int)

  /** The integer a caller holds for a slot: bit 31 is set, so that small integers are not keys. */
  function HandleOf(slot: nat): int { slot - 0x8000_0000 }

  /** 0 stands for NULL. */
  ghost function Value(h: Table, t: Tid, k: Incarnation): int {
    if (t, k) in h.values then h.values[(t, k)] else 0
  }

  ghost function After(h: Table, t: Tid, e: Event): Table {
    match e
    case Created(k, d) => h.(destructors := h.destructors[k := d])
    case Stored(k, v) => h.(values := h.values[(t, k) := v])
    case Destroying(k, _, _) => h.(values := h.values[(t, k) := 0])
    case _ => h
  }

  /** `seqs` are the slots' sequence numbers when the event happens; odd means in use. */
  ghost predicate Current(seqs: seq<nat>, k: Incarnation) {
    k.slot < |seqs| && seqs[k.slot] == k.serial && k.serial % 2 == 1
  }

  ghost predicate Legal(seqs: seq<nat>, h: Table, t: Tid, e: Event) {
    match e
    case Created(k, _) =>
      k !in h.destructors && k.slot < |seqs| && seqs[k.slot] % 2 == 0 && k.serial == seqs[k.slot] + 1
    case NotAKey(handle) => forall i: nat | i < |seqs| :: handle != HandleOf(i)
    case Unused(slot) => slot < |seqs| && seqs[slot] % 2 == 0
    case Gone(k) => !Current(seqs, k)
    case Deleted(k) => Current(seqs, k)
    case Stored(k, _) => Current(seqs, k)
    case Got(k, v) => Current(seqs, k) && v == Value(h, t, k)
    case Destroying(k, d, v) =>
      && Current(seqs, k)
      && k in h.destructors && d == h.destructors[k] != 0
      && v == Value(h, t, k) != 0
    case _ => true
  }
}

module Keys {
  import opened Threads
  import opened KeysSpec

  const KEY_COUNT: nat := 130   // BIONIC_PTHREAD_KEY_COUNT
  const ITERATIONS: nat := 4    // PTHREAD_DESTRUCTOR_ITERATIONS

  type Key = x: int | -0x8000_0000 <= x < 0x8000_0000

  predicate KeyInValidRange(key: Key) { key < -0x8000_0000 + KEY_COUNT }

  /** key & ~KEY_VALID_FLAG. */
  function SlotOf(key: Key): nat { if key < 0 then key + 0x8000_0000 else key }

  /** i | KEY_VALID_FLAG. */
  function KeyOf(slot: nat): Key
    requires slot < KEY_COUNT
  {
    HandleOf(slot)
  }

  predicate InUse(sq: nat) { sq % 2 == 1 }

  /** One entry of a thread's key_data. */
  datatype Cell = Cell(serial: nat, data: int)

  datatype Op =
    | Idle
    | CreateLoad(slot: nat, destructor: int)
    | CreateCas(slot: nat, destructor: int, seen: nat)   // weak
    | CreateStore(slot: nat, destructor: int)            // store key_destructor
    | DeleteLoad(slot: nat)
    | DeleteCas(slot: nat, seen: nat)                    // strong
    | GetLoad(slot: nat)
    | SetLoad(slot: nat, value: int)

  /** Where pthread_key_clean_all is, in which round and at which slot. */
  datatype Sub = Check | ReadDestructor(serial: nat) | Recheck(serial: nat, destructor: int) | InDestructor

  datatype Clean =
    | NotExiting
    | Cleaning(rounds: nat, slot: nat, called: nat, sub: Sub)
    | Finished(quiet: bool)     // quiet: the last round called no destructor

  datatype Thread = Thread(op: Op, clean: Clean, data: seq<Cell>)

  datatype State = State(seqs: seq<nat>, destructors: seq<int>, threads: map<Tid, Thread>)

  datatype Action =
    | StartCreate(tid: Tid, destructor: int)
    | StartDelete(tid: Tid, key: Key)
    | StartGet(tid: Tid, key: Key)
    | StartSet(tid: Tid, key: Key, value: int)
    | StartExit(tid: Tid)
    | RunOp(tid: Tid, spurious: bool)
    | RunClean(tid: Tid)
    | DestructorReturns(tid: Tid)

  /** The thread may call the key functions: it is running, or inside a destructor. */
  predicate MayCall(th: Thread) {
    th.op.Idle? && (th.clean.NotExiting? || (th.clean.Cleaning? && th.clean.sub.InDestructor?))
  }

  /** Some thread has claimed the slot and not yet stored its destructor. */
  ghost predicate BeingCreated(s: State, slot: nat) {
    exists u :: u in s.threads && s.threads[u].op.CreateStore? && s.threads[u].op.slot == slot
  }

  ghost predicate Shaped(s: State) {
    && |s.seqs| == KEY_COUNT && |s.destructors| == KEY_COUNT
    && forall t | t in s.threads :: |s.threads[t].data| == KEY_COUNT && OpInRange(s.threads[t].op)
         && (s.threads[t].clean.Cleaning? ==> s.threads[t].clean.slot < KEY_COUNT)
  }

  predicate OpInRange(op: Op) {
    op.Idle? || op.slot < KEY_COUNT
  }

  ghost predicate Enabled(s: State, a: Action) {
    && Shaped(s) && a.tid in s.threads
    && var th := s.threads[a.tid];
       match a
       case StartExit(t) => th.op.Idle? && th.clean.NotExiting?
       case RunOp(t, spurious) =>
         && !th.op.Idle?
         && (spurious ==> th.op.CreateCas?)
         // A key is used or deleted only after pthread_key_create has returned it.
         && (th.op.SetLoad? || th.op.DeleteCas? ==> !BeingCreated(s, th.op.slot))
       case RunClean(t) => th.op.Idle? && th.clean.Cleaning? && !th.clean.sub.InDestructor?
       case DestructorReturns(t) => th.op.Idle? && th.clean.Cleaning? && th.clean.sub.InDestructor?
       case _ => MayCall(th)
  }

  function Put(s: State, t: Tid, th: Thread): State {
    s.(threads := s.threads[t := th])
  }

  function PutOp(s: State, t: Tid, op: Op): State
    requires t in s.threads
  {
    Put(s, t, s.threads[t].(op := op))
  }

  /** pthread_key_create goes on to the next slot, or gives up after the last. */
  function NextSlot(slot: nat, destructor: int): (Op, Event) {
    if slot + 1 < KEY_COUNT then (CreateLoad(slot + 1, destructor), Quiet) else (Idle, NoSlot)
  }

  function CreateTest(slot: nat, destructor: int, sq: nat): (Op, Event) {
    if InUse(sq) then NextSlot(slot, destructor) else (CreateCas(slot, destructor, sq), Quiet)
  }

  ghost function NextOp(s: State, t: Tid, spurious: bool): (State, Event)
    requires Shaped(s) && t in s.threads && !s.threads[t].op.Idle?
  {
    var th := s.threads[t];
    var sq := s.seqs[th.op.slot];
    match th.op
    case CreateLoad(i, d) => var (op, e) := CreateTest(i, d, sq); (PutOp(s, t, op), e)
    case CreateCas(i, d, seen) =>
      if sq == seen && !spurious then
        (PutOp(s.(seqs := s.seqs[i := seen + 1]), t, CreateStore(i, d)), Created(Incarnation(i, seen + 1), d))
      else var (op, e) := CreateTest(i, d, sq); (PutOp(s, t, op), e)
    case CreateStore(i, d) => (PutOp(s.(destructors := s.destructors[i := d]), t, Idle), Quiet)
    case DeleteLoad(i) => if InUse(sq) then (PutOp(s, t, DeleteCas(i, sq)), Quiet) else (PutOp(s, t, Idle), Unused(i))
    case DeleteCas(i, seen) =>
      if sq == seen then (PutOp(s.(seqs := s.seqs[i := seen + 1]), t, Idle), Deleted(Incarnation(i, seen)))
      else (PutOp(s, t, Idle), Gone(Incarnation(i, seen)))
    case GetLoad(i) =>
      if InUse(sq) && th.data[i].serial == sq then (PutOp(s, t, Idle), Got(Incarnation(i, sq), th.data[i].data))
      else (Put(s, t, th.(op := Idle, data := th.data[i := th.data[i].(data := 0)])),
            if InUse(sq) then Got(Incarnation(i, sq), 0) else Unused(i))
    case SetLoad(i, v) =>
      if InUse(sq) then (Put(s, t, th.(op := Idle, data := th.data[i := Cell(sq, v)])), Stored(Incarnation(i, sq), v))
      else (PutOp(s, t, Idle), Unused(i))
  }

  /** The next slot of this round, the next round, or the end. */
  function Advance(c: Clean): Clean
    requires c.Cleaning?
  {
    if c.slot + 1 < KEY_COUNT then Cleaning(c.rounds, c.slot + 1, c.called, Check)
    else if c.called == 0 then Finished(true)
    else if c.rounds <= 1 then Finished(false)
    else Cleaning(c.rounds - 1, 0, 0, Check)
  }

  ghost function NextClean(s: State, t: Tid): (State, Event)
    requires Shaped(s) && t in s.threads && s.threads[t].clean.Cleaning?
  {
    var th := s.threads[t];
    var c := th.clean;
    var (i, sq, cell) := (c.slot, s.seqs[c.slot], th.data[c.slot]);
    match c.sub
    case Check =>
      if InUse(sq) && sq == cell.serial && cell.data != 0 then
        (Put(s, t, th.(clean := c.(sub := ReadDestructor(sq)))), Quiet)
      else (Put(s, t, th.(clean := Advance(c))), Quiet)
    case ReadDestructor(seen) =>
      if s.destructors[i] == 0 then (Put(s, t, th.(clean := Advance(c))), Quiet)
      else (Put(s, t, th.(clean := c.(sub := Recheck(seen, s.destructors[i])))), Quiet)
    case Recheck(seen, d) =>
      if sq != seen then (Put(s, t, th.(clean := Advance(c))), Quiet)
      else (Put(s, t, th.(clean := c.(sub := InDestructor, called := c.called + 1),
                          data := th.data[i := cell.(data := 0)])),
            Destroying(Incarnation(i, seen), d, cell.data))
    case InDestructor => (Put(s, t, th.(clean := Advance(c))), Quiet)
  }

  ghost function Do(s: State, a: Action): (State, Event)
    requires Enabled(s, a)
  {
    match a
    case StartCreate(t, d) => (PutOp(s, t, CreateLoad(0, d)), Quiet)
    case StartDelete(t, key) =>
      if KeyInValidRange(key) then (PutOp(s, t, DeleteLoad(SlotOf(key))), Quiet) else (s, NotAKey(key))
    case StartGet(t, key) =>
      if KeyInValidRange(key) then (PutOp(s, t, GetLoad(SlotOf(key))), Quiet) else (s, NotAKey(key))
    case StartSet(t, key, v) =>
      if KeyInValidRange(key) then (PutOp(s, t, SetLoad(SlotOf(key), v)), Quiet) else (s, NotAKey(key))
    case StartExit(t) => (Put(s, t, s.threads[t].(clean := Cleaning(ITERATIONS, 0, 0, Check))), Quiet)
    case RunOp(t, spurious) => NextOp(s, t, spurious)
    case RunClean(t) => NextClean(s, t)
    case DestructorReturns(t) => NextClean(s, t)
  }

  ghost predicate Init(s: State) {
    && Shaped(s)
    && (forall i | 0 <= i < KEY_COUNT :: s.seqs[i] == 0)
    && forall t | t in s.threads ::
         && s.threads[t].op.Idle? && s.threads[t].clean.NotExiting?
         && forall i | 0 <= i < KEY_COUNT :: s.threads[t].data[i] == Cell(0, 0)
  }

  /** Exactly the integers that pthread_key_create can hand out pass the range check. */
  lemma ValidKeys(key: Key)
    ensures KeyInValidRange(key) <==> exists slot :: 0 <= slot < KEY_COUNT && key == KeyOf(slot)
    ensures KeyInValidRange(key) ==> SlotOf(key) < KEY_COUNT && KeyOf(SlotOf(key)) == key
  {
    if KeyInValidRange(key) {
      assert key == KeyOf(SlotOf(key));
    }
  }
}
