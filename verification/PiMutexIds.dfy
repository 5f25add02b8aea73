// bionic/libc/bionic/pthread_mutex.cpp: 16-bit ids for priority-inheritance
// mutexes in 32-bit programs, kept in a two-level table with an embedded free list.
module PiMutexIds {

  datatype PiMutex = PiMutex(kind: nat, shared: bool, counter: nat, ownerTid: int)

  const ZEROED := PiMutex(0, false, 0, 0)

  /** The union Node, remembering which member was written last. */
  datatype Node = Mutex(mutex: PiMutex) | NextFree(id: int)

  const BLOCK := 256
  const MAX_IDS := 0x10000

  /** How many blocks hold the ids below `n`. */
  function Blocks(n: nat): nat { (n + BLOCK - 1) / BLOCK }

  /** id >> 8 and id & 0xff tell ids apart. */
  lemma PlacesDiffer(i: nat, j: nat)
    requires i / BLOCK == j / BLOCK && i % BLOCK == j % BLOCK
    ensures i == j
  {
    assert i == i / BLOCK * BLOCK + i % BLOCK;
    assert j == j / BLOCK * BLOCK + j % BLOCK;
  }

  lemma PlaceInTable(id: nat, n: nat)
    requires id < n <= MAX_IDS
    ensures id / BLOCK < Blocks(n) <= BLOCK
  {
  }

  lemma BlocksStep(n: nat)
    ensures n % BLOCK == 0 ==> Blocks(n) == n / BLOCK && Blocks(n + 1) == n / BLOCK + 1
    ensures n % BLOCK != 0 ==> Blocks(n) == n / BLOCK + 1 == Blocks(n + 1)
  {
  }

  /** The free list threaded through the nodes `c`, from `first` on, is `free`. */
  ghost predicate Chain(c: seq<Node>, first: int, free: seq<nat>) {
    && (forall k | 0 <= k < |free| :: free[k] < |c|)
    && (forall j, k | 0 <= j < k < |free| :: free[j] != free[k])
    && first == Head(free, 0)
    && (forall k | 0 <= k < |free| :: c[free[k]] == NextFree(Head(free, k + 1)))
  }

  ghost function Head(free: seq<nat>, k: nat): int {
    if k < |free| then free[k] else -1
  }

  lemma PopChain(c: seq<Node>, first: int, free: seq<nat>)
    requires Chain(c, first, free) && first != -1
    ensures 0 <= first < |c| && free == [first as nat] + free[1..] && first !in free[1..]
    ensures c[first].NextFree? && Chain(c, c[first].id, free[1..])
  {
  }

  lemma PushChain(c: seq<Node>, first: int, free: seq<nat>, id: nat)
    requires Chain(c, first, free) && id < |c| && id !in free
    ensures Chain(c[id := NextFree(first)], id, [id] + free)
  {
  }

  class Allocator {
    var nodes: array?<array?<Node>>
    var next: nat
    var firstFree: int
    /** The free list, first element first. */
    ghost var free: seq<nat>
    /** All nodes that ids have been handed out for. */
    ghost var contents: seq<Node>
    ghost var Repr: set<object>

    /** Every id below `n` has a node of its own. */
    ghost predicate Backed(n: nat)
      reads this, Repr
    {
      && this !in Repr
      && (n > 0 ==>
            && Blocks(n) <= BLOCK
            && nodes != null && nodes in Repr && nodes.Length == BLOCK
            && (forall b | 0 <= b < Blocks(n) :: nodes[b] != null && nodes[b] in Repr && nodes[b].Length == BLOCK)
            && (forall b, c | 0 <= b < c < Blocks(n) :: nodes[b] != nodes[c]))
    }

    /** The contents of an id's node: (*nodes[id >> 8])[id & 0xff]. */
    ghost function At(id: nat): Node
      requires next <= MAX_IDS && Backed(next) && id < next
      reads this, Repr
    {
      PlaceInTable(id, next);
      nodes[id / BLOCK][id % BLOCK]
    }

    /** The table is in place and holds `contents`. */
    ghost predicate Stored()
      reads this, Repr
    {
      next == |contents| <= MAX_IDS && Backed(next) && forall i: nat | i < next :: At(i) == contents[i]
    }

    ghost predicate Valid()
      reads this, Repr
    {
      Stored() && Chain(contents, firstFree, free)
    }

    /** Live and free ids partition [0, next). */
    ghost function Live(): set<nat>
      reads this
    {
      set id: nat | id < next && id !in free
    }

    constructor ()
      ensures Valid() && Live() == {} && free == [] && next == 0
    {
      nodes, next, firstFree, free, contents, Repr := null, 0, -1, [], [], {};
    }

    /** IdToNode(id) = node. */
    method Write(id: nat, node: Node)
      requires Stored() && id < next
      modifies this`contents, Repr
      ensures Stored() && Pinned() && contents == old(contents)[id := node]
    {
      PlaceInTable(id, next);
      nodes[id / BLOCK][id % BLOCK] := node;
      contents := contents[id := node];
    }

    /** No id handed out so far is looked up through a different block. */
    twostate predicate Pinned()
      reads this, Repr
    {
      old(next <= MAX_IDS && Backed(next) && next > 0) ==>
        && nodes == old(nodes) && nodes != null && nodes in Repr
        && (forall b | 0 <= b < old(Blocks(next)) :: b < nodes.Length && nodes[b] == old(nodes[b]))
    }

    /** A block for the ids from `next` on, and the table itself before the first one. */
    method AddBlock(tableOk: bool, blockOk: bool) returns (ok: bool)
      requires next < MAX_IDS && Backed(next) && next % BLOCK == 0
      modifies this`nodes, this`Repr, nodes
      ensures ok <==> blockOk && (next == 0 ==> tableOk)
      ensures Pinned() && fresh(Repr - old(Repr)) && old(Repr) <= Repr
      ensures Backed(next) && (ok ==> Backed(next + 1))
    {
      BlocksStep(next);
      if next / BLOCK == 0 {
        if !tableOk {
          return false;
        }
        nodes := new array?<Node>[BLOCK](_ => null);
        Repr := Repr + {nodes};
      }
      if !blockOk {
        nodes[next / BLOCK] := null;
        return false;
      }
      var block := new Node[BLOCK];
      nodes[next / BLOCK] := block;
      Repr := Repr + {block};
      ok := true;
    }

    /** Allocation from the free list. */
    method Reuse() returns (id: nat)
      requires Valid() && firstFree != -1
      modifies this`firstFree, this`free
      ensures Valid()
      ensures id < next && old(free) == [id] + free && id !in free
    {
      PopChain(contents, firstFree, free);
      id := firstFree;
      PlaceInTable(id, next);
      firstFree := nodes[id / BLOCK][id % BLOCK].id;
      free := free[1..];
    }

    method Bump()
      requires Stored() && next < MAX_IDS && Backed(next + 1)
      modifies this`next, this`contents
      ensures Stored() && next == old(next) + 1 && old(contents) <= contents
    {
      next := next + 1;
      contents := contents + [At(next - 1)];
    }

    /** Allocation of an id never used before. */
    method Extend(tableOk: bool, blockOk: bool) returns (ok: bool)
      requires next < MAX_IDS && Stored()
      modifies this`nodes, this`next, this`contents, this`Repr, nodes
      ensures ok <==> (old(next) % BLOCK == 0 ==> blockOk && (old(next) == 0 ==> tableOk))
      ensures Stored() && next == old(next) + (if ok then 1 else 0) && old(contents) <= contents
      ensures Pinned() && fresh(Repr - old(Repr))
    {
      ok := true;
      if next % BLOCK == 0 {
        ok := AddBlock(tableOk, blockOk);
        forall i: nat | i < next ensures At(i) == contents[i] {
          PlaceInTable(i, next);
          assert At(i) == old(At(i));
        }
      } else {
        BlocksStep(next);
      }
      assert Stored() && (ok ==> Backed(next + 1));
      if ok {
        Bump();
      }
    }

    method AllocIdLocked(tableOk: bool, blockOk: bool) returns (id: int)
      requires Valid()
      modifies this, nodes
      ensures Valid() && Pinned() && fresh(Repr - old(Repr))
      ensures id == -1 <==> old(free == [] && (next == MAX_IDS ||
                (next % BLOCK == 0 && (!blockOk || (next == 0 && !tableOk)))))
      ensures id == -1 ==> Live() == old(Live())
      ensures id != -1 ==> 0 <= id < MAX_IDS && id !in old(Live()) && Live() == old(Live()) + {id}
      ensures old(contents) <= contents
    {
      if firstFree != -1 {
        id := Reuse();
      } else if next >= MAX_IDS {
        id := -1;
      } else {
        var ok := Extend(tableOk, blockOk);
        id := if ok then next - 1 else -1;
      }
    }

    method AllocId(tableOk: bool, blockOk: bool) returns (id: int)
      requires Valid()
      modifies this, nodes, Repr
      ensures Valid() && Pinned() && fresh(Repr - old(Repr))
      ensures id == -1 <==> old(free == [] && (next == MAX_IDS ||
                (next % BLOCK == 0 && (!blockOk || (next == 0 && !tableOk)))))
      ensures id == -1 ==> Live() == old(Live())
      ensures id != -1 ==>
        0 <= id < MAX_IDS && id !in old(Live()) && Live() == old(Live()) + {id} && contents[id] == Mutex(ZEROED)
      ensures forall i | i in old(Live()) :: contents[i] == old(contents[i])
    {
      id := AllocIdLocked(tableOk, blockOk);
      if id != -1 {
        Write(id, Mutex(ZEROED));
      }
    }

    method FreeId(id: nat)
      requires Valid() && id in Live()
      modifies this`firstFree, this`free, this`contents, Repr
      ensures Valid() && Pinned()
      ensures next == old(next) && free == [id] + old(free) && Live() == old(Live()) - {id}
      ensures forall i | i in Live() :: contents[i] == old(contents[i])
    {
      PushChain(contents, firstFree, free, id);
      assert Live() == (set i: nat | i < next && i !in [id] + free) + {id};
      Write(id, NextFree(firstFree));
      firstFree := id;
      free := [id] + free;
    }
  }
}
