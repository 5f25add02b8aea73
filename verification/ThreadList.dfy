/** bionic/libc/bionic/pthread_internal.cpp: the doubly linked list of all threads. */
module ThreadList {

  /** The links of a pthread_internal_t. */
  class ThreadRecord {
    var next: ThreadRecord?
    var prev: ThreadRecord?
  }

  ghost predicate Distinct<T>(s: seq<T>) {
    forall i, j | 0 <= i < j < |s| :: s[i] != s[j]
  }

  /** `s` with the element at `k` taken out. */
  ghost function Without<T>(s: seq<T>, k: nat): seq<T>
    requires k < |s|
  {
    s[..k] + s[k + 1..]
  }

  /** The element at `k`, or null beyond either end. */
  ghost function At(s: seq<ThreadRecord>, k: int): ThreadRecord? {
    if 0 <= k < |s| then s[k] else null
  }

  lemma WithoutAt(s: seq<ThreadRecord>, k: nat)
    requires k < |s| && Distinct(s)
    ensures |Without(s, k)| == |s| - 1 && Distinct(Without(s, k)) && s[k] !in Without(s, k)
    ensures forall i | 0 <= i < |s| - 1 :: Without(s, k)[i] == s[if i < k then i else i + 1]
  {
    var r := Without(s, k);
    forall i | 0 <= i < |s| - 1 ensures r[i] == s[if i < k then i else i + 1] {
    }
  }

  /** Following next from `head` visits `s`, and prev goes back. */
  ghost predicate Linked(head: ThreadRecord?, s: seq<ThreadRecord>)
    reads s
  {
    && head == At(s, 0)
    && Distinct(s)
    && (forall k {:trigger s[k].next} | 0 <= k < |s| :: s[k].next == At(s, k + 1))
    && (forall k {:trigger s[k].prev} | 0 <= k < |s| :: s[k].prev == At(s, k - 1))
  }

  /** The neighbours of position `k` have been made to point past it. */
  ghost predicate Bypassed(head: ThreadRecord?, s: seq<ThreadRecord>, k: nat)
    requires k < |s|
    reads s
  {
    && head == (if k == 0 then At(s, 1) else At(s, 0))
    && Distinct(s)
    && (forall j {:trigger s[j].next} | 0 <= j < |s| && j != k ::
      s[j].next == if j + 1 == k then At(s, k + 1) else At(s, j + 1))
    && (forall j {:trigger s[j].prev} | 0 <= j < |s| && j != k ::
      s[j].prev == if j - 1 == k then At(s, k - 1) else At(s, j - 1))
  }

  lemma BypassedIsLinked(head: ThreadRecord?, s: seq<ThreadRecord>, k: nat)
    requires k < |s| && Bypassed(head, s, k)
    ensures Linked(head, Without(s, k))
  {
    WithoutAt(s, k);
    var r := Without(s, k);
    forall i | 0 <= i < |r| ensures r[i].next == At(r, i + 1) && r[i].prev == At(r, i - 1) {
      var j := if i < k then i else i + 1;
      assert r[i] == s[j];
      assert s[j].next == if j + 1 == k then At(s, k + 1) else At(s, j + 1);
      assert s[j].prev == if j - 1 == k then At(s, k - 1) else At(s, j - 1);
      assert i + 1 < |r| ==> r[i + 1] == s[if i + 1 < k then i + 1 else i + 2];
      assert i > 0 ==> r[i - 1] == s[if i - 1 < k then i - 1 else i];
    }
  }

  /** g_thread_list; every operation runs under g_thread_list_lock. */
  class List {
    var head: ThreadRecord?
    ghost var records: seq<ThreadRecord>

    ghost predicate Valid()
      reads this, records
    {
      Linked(head, records)
    }

    constructor ()
      ensures Valid() && records == []
    {
      head := null;
      records := [];
    }

    /** __pthread_internal_add. */
    method Add(thread: ThreadRecord)
      requires Valid() && thread !in records
      modifies this, thread, records
      ensures Valid() && records == [thread] + old(records)
    {
      thread.next := head;
      thread.prev := null;
      if thread.next != null {
        thread.next.prev := thread;
      }
      head := thread;
      records := [thread] + records;
    }

    /** __pthread_internal_remove. */
    method Remove(thread: ThreadRecord, ghost k: nat)
      requires Valid() && k < |records| && records[k] == thread
      modifies this, records
      ensures Valid() && records == Without(old(records), k) && thread !in records
      ensures thread.next == old(thread.next) && thread.prev == old(thread.prev)
    {
      if thread.next != null {
        thread.next.prev := thread.prev;
      }
      if thread.prev != null {
        thread.prev.next := thread.next;
      } else {
        head := thread.next;
      }
      BypassedIsLinked(head, records, k);
      WithoutAt(records, k);
      records := Without(records, k);
    }

    /** __pthread_internal_find for a thread other than the caller. */
    method Find(thread: ThreadRecord) returns (found: bool)
      requires Valid()
      ensures found <==> thread in records
    {
      var t := head;
      ghost var k := 0;
      while t != null
        invariant 0 <= k <= |records| && t == At(records, k)
        invariant thread !in records[..k]
        decreases |records| - k
      {
        if t == thread {
          return true;
        }
        t := t.next;
        k := k + 1;
      }
      return false;
    }
  }
}
