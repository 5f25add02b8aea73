/** The shared path buffer, as the characters in it. */
module FtsPath {
  import opened FtsSpec

  /** memmove into the buffer. */
  function Put(buf: seq<char>, at: nat, s: seq<char>): (r: seq<char>)
    requires at + |s| <= |buf|
    ensures |r| == |buf|
  {
    buf[..at] + s + buf[at + |s|..]
  }

  /** The C string in the buffer. */
  function CString(buf: seq<char>): string {
    if buf == [] || buf[0] == '\0' then "" else [buf[0]] + CString(buf[1..])
  }

  ghost predicate Holds(buf: seq<char>, s: string) {
    |s| < |buf| && buf[..|s|] == s && buf[|s|] == '\0'
  }

  lemma {:induction false} HoldsString(buf: seq<char>, s: string)
    requires Holds(buf, s) && '\0' !in s
    ensures CString(buf) == s
  {
    if s != "" {
      assert buf[0] == s[0] && buf[1..][..|s| - 1] == s[1..];
      HoldsString(buf[1..], s[1..]);
    }
  }

  lemma PutHolds(buf: seq<char>, prefix: string, name: string)
    requires |prefix| + 1 + |name| < |buf| && buf[..|prefix|] == prefix
    ensures Holds(Put(Put(buf, |prefix|, "/"), |prefix| + 1, name + "\0"), prefix + "/" + name)
  {
    var b := Put(Put(buf, |prefix|, "/"), |prefix| + 1, name + "\0");
    var s := prefix + "/" + name;
    assert b[..|s|] == s;
  }

  /** Cutting the string short. */
  lemma CutHolds(buf: seq<char>, s: string, n: nat)
    requires n <= |s| < |buf| && buf[..|s|] == s
    ensures Holds(Put(buf, n, "\0"), s[..n])
  {
    assert buf[..n] == s[..n];
  }

  /** The path of an entry begins with the path of its directory. */
  lemma JoinPrefix(path: string, name: string)
    requires path != ""
    ensures Join(path, name)[..Append(path)] == path[..Append(path)] && Join(path, name)[..|path|] == path
  {
  }
}

/** bionic/libc/bionic/fts.c without chdir, sorting, errors and user instructions. */
module Fts {
  import opened Common
  import opened FtsSpec
  import opened FtsState
  import opened FtsBuild
  import opened FtsOpen
  import opened FtsPath

  const PATH_MAX := 4096

  class Stream {
    const fs: FileSystem
    /** The allocated nodes. */
    var heap: map<nat, Node>
    var nextId: nat
    var cur: Option<nat>
    /** The path buffer; its address changes when it is moved. */
    var path: seq<char>
    var addr: nat
    /** The stream and its path buffer are allocated. */
    var streamLive: bool
    var pathLive: bool
    ghost var order: seq<nat>
    ghost var rank: map<nat, nat>
    ghost var meta: map<nat, Meta>
    ghost var later: seq<Task>
    /** The visits that fts_read has still to make. */
    ghost var todo: seq<Visit>

    ghost function TheView(): View
      reads this
    {
      View(heap, order, rank, meta, later, addr, |path|)
    }

    /** The buffer holds the current node's path, except that a root's may have lost a slash at its end. */
    ghost predicate BufferOk()
      requires order != [] && order[0] in heap
      reads this
    {
      var (id, n) := (order[0], heap[order[0]]);
      n.info == Init || (n.level == 0 && n.info == DP) || (id in meta && Holds(path, meta[id].full))
    }

    ghost predicate Fresh()
      reads this
    {
      forall id | id in heap :: id < nextId
    }

    ghost predicate Closed()
      reads this
    {
      Static(fs) && Fresh() && heap == map[] && cur == None && !streamLive && !pathLive
    }

    ghost predicate Valid()
      reads this
    {
      match cur
      case None => streamLive && pathLive && Static(fs) && Fresh() && heap == map[] && todo == []
      case Some(c) =>
        && streamLive && pathLive && Static(fs) && Fresh() && TreeOk(fs, TheView()) && c == order[0] && BufferOk()
        && todo == Remaining(fs, TheView())
    }

    constructor (fs: FileSystem)
      requires Static(fs)
      ensures this.fs == fs && Closed()
    {
      this.fs := fs;
      heap, nextId, cur, path, addr, streamLive, pathLive := map[], 0, None, [], 0, false, false;
      order, rank, meta, later, todo := [], map[], map[], [], [];
    }

    // -------------------------------------------------------------- allocation

    method FreeNode(id: nat)
      requires id in heap
      modifies this`heap
      ensures heap == old(heap) - {id}
    {
      heap := heap - {id};
    }

    /** fts_palloc: the buffer grows, and may move. */
    method Palloc(more: nat) returns (moved: bool)
      modifies this`path, this`addr
      ensures |path| == |old(path)| + more + 256 && old(path) <= path && (!moved ==> addr == old(addr))
    {
      var space := new char[more + 256];
      path := path + space[..];
      moved := *;
      if moved {
        addr := addr + 1;
      }
    }

    /** NAPPEND. */
    function NAppend(p: nat): nat
      requires p in heap && heap[p].pathAddr == addr && 0 < heap[p].pathlen <= |path|
      reads this
    {
      if path[heap[p].pathlen - 1] == '/' then heap[p].pathlen - 1 else heap[p].pathlen
    }

    // -------------------------------------------------------------- fts_stat

    /** Is the directory one of those above, from `up` on? */
    method InCycle(up: nat, ino: Ino, ghost v: View) returns (cyclic: bool)
      requires Climbing(v, up) && forall id | id in v.h :: id in heap && SameBut(v.h[id], heap[id])
      ensures cyclic <==> ino in v.meta[up].anc + {v.h[up].ino}
    {
      var t := up;
      while heap[t].level >= 0
        invariant t in v.h && (v.h[t].level >= 0 ==> t in v.meta && Inside(v.h[t], v.meta[t]))
        invariant ino in v.meta[up].anc + {v.h[up].ino} <==> v.h[t].level >= 0 && ino in v.meta[t].anc + {v.h[t].ino}
        decreases if t in v.rank then v.rank[t] else 0
      {
        if ino == heap[t].ino {
          return true;
        }
        assert ChainNode(v, t);
        t := heap[t].parent.value;
      }
      cyclic := false;
    }

    /** fts_stat for a directory entry: D, DC or what the file is. */
    method StatEntry(t: Target, c: nat, ghost v: View) returns (info: Info)
      requires Climbing(v, c) && forall id | id in v.h :: id in heap && SameBut(v.h[id], heap[id])
      ensures info == InfoOf(t, v.meta[c].anc + {v.h[c].ino})
    {
      if t.ToDir? {
        var cyclic := InCycle(c, t.ino, v);
        info := if cyclic then DC else D;
      } else {
        info := t.info;
      }
    }

    // -------------------------------------------------------------- fts_build

    /** The buffer begins with the path of the directory and a slash. */
    ghost predicate InDirectory(full: string)
      reads this
    {
      && full != "" && Append(full) < |path|
      && path[..Append(full)] == full[..Append(full)] && path[Append(full)] == '/'
    }

    /** Room for the name, and the name in the buffer. */
    method PutName(name: string, len: nat, ghost full: string) returns (moved: bool)
      requires InDirectory(full) && len == Append(full) + 1
      modifies this`path, this`addr
      ensures InDirectory(full) && |path| >= old(|path|) && len + |name| < |path| && (!moved ==> addr == old(addr))
    {
      moved := false;
      if |name| >= |path| - len {
        moved := Palloc(|name| + len + 1);
      }
      path := Put(path, len, name + "\0");
    }

    /** One entry is appended to the list. */
    method AddEntry(e: Entry, info: Info, c: nat, len: nat, level: int, tail: Option<nat>,
                    ghost was: map<nat, Node>, ghost m: Meta, ghost ino: Ino, ghost kids: seq<nat>,
                      ghost es: seq<Entry>)
        returns (p: nat, moved: bool)
      requires Fresh() && Built(fs, was, heap, kids, es, c, m, ino, |path|) && InDirectory(m.full)
      requires len == Append(m.full) + 1
      requires tail == (if kids == [] then None else Some(kids[|kids| - 1])) && level == Depth(m.anc + {ino}) > 0
      requires ProperName(e.name) && MetaOk(fs, KidMeta(m, ino, e)) && info == InfoOf(e.target, m.anc + {ino})
      modifies this`heap, this`nextId, this`path, this`addr
      ensures Fresh() && p == old(nextId) && InDirectory(m.full) && |path| >= old(|path|)
      ensures Built(fs, was, heap, kids + [p], es + [e], c, m, ino, |path|)
      ensures !moved ==> addr == old(addr) && p in heap && heap[p].pathAddr == addr
      ensures forall id | id in heap :: id == p || (id in old(heap) && heap[id].pathAddr == old(heap)[id].pathAddr)
    {
      ghost var (h, cap) := (heap, |path|);
      p, nextId := nextId, nextId + 1;
      var n := Node(e.name, Some(c), None, level, info, if e.target.ToDir? then e.target.ino else
        Ino(0, 0), len + |e.name|, addr);
      moved := PutName(e.name, len, m.full);
      ListedBefore(h, kids, c, p);
      AppendNode(p, n, tail, kids);
      MakesKid(fs, n, e, m, ino, |path|);
      AppendBuilt(fs, was, h, kids, es, c, m, ino, cap, p, n, e, |path|);
      assert heap == Appended(h, kids, p, n);
    }

    /** The node is allocated, and the last one of the list points to it. */
    method AppendNode(p: nat, n: Node, tail: Option<nat>, ghost kids: seq<nat>)
      requires tail == (if kids == [] then None else Some(kids[|kids| - 1])) && (tail.Some? ==> tail.value in heap)
      requires p !in heap
      modifies this`heap
      ensures heap == Appended(old(heap), kids, p, n)
      ensures forall id | id in heap :: id == p || (id in old(heap) && heap[id].pathAddr == old(heap)[id].pathAddr)
      ensures p in heap && heap[p] == n
    {
      if tail.Some? {
        heap := heap[tail.value := heap[tail.value].(link := Some(p))];
      }
      heap := heap[p := n];
    }

    /** The list so far, from `head` to `tail`: nodes for the entries `es`. */
    ghost predicate Listing(
        v: View, c: nat, m: Meta, kids: seq<nat>, es: seq<Entry>, head: Option<nat>, tail: Option<nat>, doadjust: bool)
      requires c in v.h && v.order != []
      reads this
    {
      match tail
      case None =>
        && kids == [] && head == None && !doadjust && heap == v.h && |path| == v.cap && addr == v.addr
        && Listed(v, c, m, kids, es, doadjust)
      case Some(p) =>
        kids != [] && head == Some(kids[0]) && p == kids[|kids| - 1] && Listed(v, c, m, kids, es, doadjust)
    }

    ghost predicate Listed(v: View, c: nat, m: Meta, kids: seq<nat>, es: seq<Entry>, doadjust: bool)
      requires c in v.h && v.order != []
      reads this
    {
      && Fresh() && InDirectory(m.full) && |path| >= v.cap
      && Built(fs, v.h, heap, kids, es, c, m, v.h[c].ino, |path|)
      && (doadjust || Addressed(heap, Root(v.order), addr))
    }

    method NextEntry(e: Entry, c: nat, len: nat, level: int, head: Option<nat>, tail: Option<nat>, doadjust: bool,
                     ghost v: View, ghost m: Meta, ghost kids: seq<nat>, ghost es: seq<Entry>)
        returns (p: nat, doadjust': bool)
      requires Climbing(v, c) && m == v.meta[c] && v.order != [] && Listing(v, c, m, kids, es, head, tail, doadjust)
      requires len == Append(m.full) + 1 && ProperName(e.name) && MetaOk(fs, KidMeta(m, v.h[c].ino, e))
      requires level == Depth(m.anc + {v.h[c].ino}) > 0
      modifies this`heap, this`nextId, this`path, this`addr
      ensures Listing(v, c, m, kids + [p], es + [e], if kids == [] then Some(p) else head, Some(p), doadjust')
    {
      var info := StatEntry(e.target, c, v);
      var moved;
      p, moved := AddEntry(e, info, c, len, level, tail, v.h, m, v.h[c].ino, kids, es);
      doadjust' := doadjust || moved;
    }

    /** Entries other than "." and ".." get a node. */
    method TakeEntry(e: Entry, c: nat, len: nat, level: int, head: Option<nat>, tail: Option<nat>, doadjust: bool,
                     ghost v: View, ghost m: Meta, ghost kids: seq<nat>, ghost es: seq<Entry>, ghost es': seq<Entry>)
        returns (head': Option<nat>, tail': Option<nat>, doadjust': bool, ghost kids': seq<nat>)
      requires Climbing(v, c) && m == v.meta[c] && v.order != [] && Listing(v, c, m, kids, es, head, tail, doadjust)
      requires len == Append(m.full) + 1 && ProperName(e.name) && MetaOk(fs, KidMeta(m, v.h[c].ino, e))
      requires level == Depth(m.anc + {v.h[c].ino}) > 0
      requires es' == if IsDot(e.name) then es else es + [e]
      modifies this`heap, this`nextId, this`path, this`addr
      ensures Listing(v, c, m, kids', es', head', tail', doadjust')
    {
      head', tail', doadjust', kids' := head, tail, doadjust, kids;
      if !IsDot(e.name) {
        var p;
        p, doadjust' := NextEntry(e, c, len, level, head, tail, doadjust, v, m, kids, es);
        head', tail', kids' := if head.None? then Some(p) else head, Some(p), kids + [p];
      }
    }

    /** The entry at place i. */
    method EntryAt(entries: seq<Entry>, i: nat, c: nat, len: nat, level: int, head: Option<nat>, tail: Option<nat>,
                   doadjust: bool, ghost v: View, ghost m: Meta, ghost kids: seq<nat>, ghost es: seq<Entry>)
        returns (head': Option<nat>, tail': Option<nat>, doadjust': bool, ghost kids': seq<nat>, ghost es': seq<Entry>)
      requires Climbing(v, c) && m == v.meta[c] && v.order != [] && Listing(v, c, m, kids, es, head, tail, doadjust)
      requires EntriesOk(fs, entries, m, v.h[c].ino) && len == Append(m.full) + 1
      requires level == Depth(m.anc + {v.h[c].ino}) > 0 && i < |entries| && es == VisibleTo(entries, i)
      modifies this`heap, this`nextId, this`path, this`addr
      ensures Listing(v, c, m, kids', es', head', tail', doadjust') && es' == VisibleTo(entries, i + 1)
    {
      es' := VisibleTo(entries, i + 1);
      VisibleToNext(entries, i);
      assert EntryOk(fs, entries, m, v.h[c].ino, i);
      head', tail', doadjust', kids' := TakeEntry(entries[i], c, len, level, head, tail, doadjust, v, m, kids, es, es');
    }

    /** The loop over the directory's entries. */
    method ReadEntries(entries: seq<Entry>, c: nat, len: nat, level: int, ghost v: View, ghost m: Meta)
        returns (head: Option<nat>, tail: Option<nat>, doadjust: bool, ghost kids: seq<nat>, ghost es: seq<Entry>)
      requires Climbing(v, c) && m == v.meta[c] && v.order != [] && Listing(v, c, m, [], [], None, None, false)
      requires EntriesOk(fs, entries, m, v.h[c].ino) && len == Append(m.full) + 1
      requires level == Depth(m.anc + {v.h[c].ino}) > 0
      modifies this`heap, this`nextId, this`path, this`addr
      ensures Listing(v, c, m, kids, es, head, tail, doadjust) && es == VisibleTo(entries, |entries|)
    {
      head, tail, doadjust, kids, es := None, None, false, [], [];
      var i := 0;
      while i < |entries|
        invariant 0 <= i <= |entries| && Listing(v, c, m, kids, es, head, tail, doadjust)
        invariant es == VisibleTo(entries, i)
      {
        head, tail, doadjust, kids, es :=
          EntryAt(entries, i, c, len, level, head, tail, doadjust, v, m, kids, es);
        i := i + 1;
      }
    }

    /** fts_padjust: every node from `head` on gets the address of the moved buffer. */
    method Padjust(head: nat, ghost list: seq<nat>, ghost ranks: map<nat, nat>)
      requires Shape(heap, list, ranks) && head == list[0] && Levelled(heap, list)
      modifies this`heap
      ensures Readdressed(old(heap), heap, Root(list), addr)
    {
      ghost var was, i := heap, 0;
      var p := head;
      while heap[p].level >= 0
        invariant 0 <= i < |list| && p == list[i] && heap.Keys == was.Keys
        invariant forall k | 0 <= k < |list| ::
          heap[list[k]] == if k < i then was[list[k]].(pathAddr := addr) else was[list[k]]
        decreases |list| - i
      {
        assert LevelAt(was, list, i) && NextAt(was, list, i);
        heap := heap[p := heap[p].(pathAddr := addr)];
        p := if heap[p].link.Some? then heap[p].link.value else heap[p].parent.value;
        i := i + 1;
      }
      assert LevelAt(was, list, i);
    }

    /** opendir and the loop, up to the end of the directory. */
    method ReadDirectory(c: nat, ghost v: View)
        returns (head: Option<nat>, tail: Option<nat>, len: nat, doadjust: bool, ghost kids: seq<nat>,
          ghost es: seq<Entry>)
      requires Static(fs) && Fresh() && TreeOk(fs, v) && v == TheView() && c == order[0] && heap[c].info == D
      requires BufferOk()
      modifies this`heap, this`nextId, this`path, this`addr
      ensures Listing(v, c, v.meta[c], kids, es, head, tail, doadjust) && es == VisibleIn(fs, v.h[c].ino)
      ensures len == Append(v.meta[c].full) + 1
    {
      DirectoryFacts(fs, v);
      ghost var (m, ino) := (v.meta[c], v.h[c].ino);
      HoldsString(path, m.full);
      var entries := fs.dirs[fs.resolve(CString(path)).ino];
      len := NAppend(c);
      assert len == Append(m.full);
      path := Put(path, len, "/");
      len := len + 1;
      var level := if heap[c].level < MAXLEVEL then heap[c].level + 1 else heap[c].level;
      LevelBelow(fs, v);
      AllEntriesOk(fs, m, ino);
      StartList(fs, v);
      head, tail, doadjust, kids, es := ReadEntries(entries, c, len, level, v, m);
      VisibleToAll(entries);
    }

    /** If the buffer has moved, all nodes get its new address. */
    method SettleList(head: nat, doadjust: bool, ghost list: seq<nat>, ghost ranks: map<nat, nat>)
      requires Shape(heap, list, ranks) && Levelled(heap, list) && head == list[0]
      requires Fresh() && (doadjust || Addressed(heap, Root(list), addr))
      modifies this`heap
      ensures Fresh() && Settled(old(heap), heap, Root(list), addr)
    {
      if doadjust {
        Padjust(head, list, ranks);
      }
    }

    method SettleKids(
        c: nat, head: nat, doadjust: bool, ghost v: View, ghost m: Meta, ghost kids: seq<nat>, ghost es: seq<Entry>,
                      ghost list: seq<nat>, ghost ranks: map<nat, nat>)
      requires c in v.h && v.order != [] && Listed(v, c, m, kids, es, doadjust)
      requires Shape(heap, list, ranks) && Levelled(heap, list) && head == list[0] && Root(list) == Root(v.order)
      modifies this`heap
      ensures Listed(v, c, m, kids, es, false)
    {
      ghost var h := heap;
      SettleList(head, doadjust, list, ranks);
      SettledBuilt(fs, v.h, h, heap, kids, es, c, m, v.h[c].ino, |path|, Root(v.order), addr);
    }

    /** The list becomes part of the traversal. */
    method KeepList(c: nat, len: nat, ghost v: View, ghost m: Meta, ghost kids: seq<nat>, ghost es: seq<Entry>)
      requires |v.order| >= 2 && c == v.order[0] && c in v.h && c in v.meta && m == v.meta[c] && Inside(v.h[c], m)
      requires Listed(v, c, m, kids, es, false) && kids != [] && len == Append(m.full) + 1 < |path|
      modifies this`path, this`order, this`rank, this`meta, this`later
      ensures InDirectory(m.full) && Fresh() && Entering(fs, v, TheView(), kids, es)
    {
      Terminate(len, m.full);
      BuiltEnters(fs, v, heap, heap, kids, es, addr, |path|);
      SetView(EnteredView(v, heap, kids, es, addr, |path|));
    }

    /** The string ends after the directory's slash. */
    method Terminate(len: nat, ghost full: string)
      requires InDirectory(full) && Append(full) < len < |path|
      modifies this`path
      ensures InDirectory(full) && |path| == old(|path|)
    {
      path := Put(path, len, "\0");
    }

    ghost method SetView(v: View)
      requires heap == v.h && addr == v.addr && |path| == v.cap
      modifies this`order, this`rank, this`meta, this`later
      ensures TheView() == v
    {
      order, rank, meta, later := v.order, v.rank, v.meta, v.later;
    }

    /** A directory without entries: back to its own path, and a second visit. */
    method EmptyDirectory(c: nat, len: nat, ghost v: View)
      requires Static(fs) && Fresh() && TreeOk(fs, v) && TheView() == v && c == order[0] && v.h[c].info == D
      requires c in v.meta
      requires InDirectory(v.meta[c].full) && len == Append(v.meta[c].full) + 1 && VisibleIn(fs, v.h[c].ino) == []
      modifies this`heap, this`path
      ensures EmptyAt(v, c)
    {
      CurrentFacts(fs, v);
      EmptyVisit(fs, v);
      EmptyEnd(fs, v);
      ghost var full := v.meta[c].full;
      path := Put(path, len - 1, "\0");
      heap := heap[c := heap[c].(info := DP)];
      assert TheView() == HeadSet(v, v.h[c].(info := DP));
      assert path[..Append(full)] == full[..Append(full)];
    }

    /** The directory is visited again, with its path in the buffer but for a slash at the end. */
    ghost predicate EmptyAt(v: View, c: nat)
      requires Static(fs) && c in v.meta && v.meta[c].full != ""
      reads this
    {
      var shown := v.meta[c].full[..Append(v.meta[c].full)];
      && Fresh() && order != [] && c == order[0] && c in heap && heap[c].info == DP && BufferOk() && Holds(path, shown)
      && c in meta && meta[c] == v.meta[c] && Visited(fs, v, Visit(shown, DP, heap[c].level), TheView())
    }

    /** fts_build: the list of nodes for the entries of the current directory, if it has any. */
    method Build(c: nat, ghost v: View) returns (head: Option<nat>)
      requires Static(fs) && Fresh() && TreeOk(fs, v) && TheView() == v && c == order[0] && v.h[c].info == D
      requires BufferOk()
      modifies this`heap, this`nextId, this`path, this`addr, this`order, this`rank, this`meta, this`later
      ensures Fresh() && c in v.meta && MetaOk(fs, v.meta[c])
      ensures if head.None? then EmptyAt(v, c) else Entered(v, c, head.value)
    {
      var tail, len, doadjust;
      ghost var kids, es;
      head, tail, len, doadjust, kids, es := ReadDirectory(c, v);
      DirectoryFacts(fs, v);
      if head.None? {
        assert TheView() == v;
        EmptyDirectory(c, len, v);
      } else {
        KeepKids(c, head.value, len, doadjust, v, kids, es);
      }
    }

    method KeepKids(
        c: nat, head: nat, len: nat, doadjust: bool, ghost v: View, ghost kids: seq<nat>, ghost es: seq<Entry>)
      requires Static(fs) && TreeOk(fs, v) && c == v.order[0] && v.h[c].info == D && c in v.meta
      requires Inside(v.h[c], v.meta[c])
      requires Listed(v, c, v.meta[c], kids, es, doadjust) && kids != [] && head == kids[0]
      requires len == Append(v.meta[c].full) + 1 && es == VisibleIn(fs, v.h[c].ino)
      modifies this`heap, this`path, this`order, this`rank, this`meta, this`later
      ensures Fresh() && Entered(v, c, head)
    {
      ListShape(fs, v, heap, kids, es, |path|);
      SettleKids(c, head, doadjust, v, v.meta[c], kids, es, kids + v.order, RankWith(v.rank, kids, |v.order|));
      KeepList(c, len, v, v.meta[c], kids, es);
      EnterVisit(fs, v, TheView(), kids, es);
      FirstKid(fs, v, TheView(), kids, es);
    }

    /** The first entry of the directory has become the first node. */
    ghost predicate Entered(v: View, c: nat, p: nat)
      requires Static(fs) && c in v.meta
      reads this
    {
      && order != [] && order[0] == p && p in heap && p in meta && InDirectory(v.meta[c].full)
      && heap[p].parent == Some(c) && c in heap && heap[c].pathAddr == addr && heap[c].pathlen == |v.meta[c].full|
      && meta[p].full == Join(v.meta[c].full, heap[p].name) && |meta[p].full| < |path| && heap[p].info != DP
      && heap[p].info != Init
      && Visited(fs, v, Visit(meta[p].full, heap[p].info, heap[p].level), TheView())
    }

    // -------------------------------------------------------------- fts_read

    /** A node's name goes behind the path of its directory. */
    method ShowName(p: nat, up: nat, ghost full: string)
      requires p in heap && up in heap && heap[up].pathAddr == addr && heap[up].pathlen == |full| && InDirectory(full)
      requires |Join(full, heap[p].name)| < |path|
      modifies this`path
      ensures |path| == old(|path|) && Holds(path, Join(full, heap[p].name))
    {
      var t := NAppend(up);
      assert t == Append(full);
      PutHolds(path, full[..t], heap[p].name);
      path := Put(path, t, "/");
      path := Put(path, t + 1, heap[p].name + "\0");
    }

    /** fts_load: a root's path is its name. */
    method Load(p: nat)
      requires p in heap && |heap[p].name| < |path|
      modifies this`path, this`heap
      ensures heap == old(heap)[p := old(heap)[p].(pathlen := |old(heap)[p].name|)]
      ensures |path| == old(|path|) && Holds(path, old(heap)[p].name)
    {
      path := Put(path, 0, heap[p].name + "\0");
      heap := heap[p := heap[p].(pathlen := |heap[p].name|)];
    }

    /** The next node on this level: a root is loaded, any other one's name replaces the current one's. */
    method ToSibling(c: nat, p: nat, ghost full: string, ghost dir: string)
      requires c in heap && p in heap && c != p && Fresh() && |full| < |path|
      requires heap[p].level == 0 ==> full == heap[p].name
      requires heap[p].level != 0 ==>
        && InDirectory(dir) && full == Join(dir, heap[p].name) && heap[p].pathlen == |full|
        && heap[p].parent.Some? && heap[p].parent.value in heap && heap[p].parent.value != c
        && heap[heap[p].parent.value].pathAddr == addr && heap[heap[p].parent.value].pathlen == |dir|
      modifies this`heap, this`path
      ensures Fresh() && |path| == old(|path|) && Holds(path, full)
      ensures heap == (old(heap) - {c})[p := old(heap)[p].(pathlen := |full|)]
    {
      FreeNode(c);
      if heap[p].level == 0 {
        Load(p);
      } else {
        ShowName(p, heap[p].parent.value, dir);
      }
    }

    /** Up to the directory, whose path is cut out of the buffer. */
    method ToParent(c: nat, p: nat, ghost full: string, ghost below: string)
      requires c in heap && p in heap && c != p && Fresh() && heap[p].pathlen == |full| <= |below| < |path|
      requires path[..|below|] == below && below[..|full|] == full
      modifies this`heap, this`path
      ensures Fresh() && |path| == old(|path|) && Holds(path, full)
      ensures heap == (old(heap) - {c})[p := old(heap)[p].(info := DP)]
    {
      FreeNode(c);
      CutHolds(path, below, heap[p].pathlen);
      path := Put(path, heap[p].pathlen, "\0");
      heap := heap[p := heap[p].(info := DP)];
    }

    /** On to the node that the pointers lead to, freeing the current one. */
    method MoveOn(c: nat, ghost v: View) returns (p: nat)
      requires Static(fs) && Fresh() && TreeOk(fs, v) && TheView() == v && c == order[0] && heap[c].info != D
      requires BufferOk()
      requires |order| > 2
      modifies this`heap, this`path
      ensures Fresh() && |path| == old(|path|) && p == v.order[1] && p in v.h && |v.later| > 0
      ensures heap == HeadSet(Popped(v), Stepped(v.h[p], v.later[0])).h && Holds(path, v.later[0].m.full)
    {
      NextFacts(fs, v);
      ghost var full := v.later[0].m.full;
      if heap[c].link.Some? {
        p := heap[c].link.value;
        ghost var dir := SiblingPlace(fs, v, path);
        ToSibling(c, p, full, dir);
      } else {
        p := heap[c].parent.value;
        ParentFacts(fs, v);
        ProperEnd(v.meta[p].full, v.h[c].name);
        ToParent(c, p, full, v.meta[c].full);
      }
    }

    /** The node `p` has just been shown with the path `shown`. */
    ghost predicate Showing(v: View, p: nat, shown: string)
      requires Static(fs)
      reads this
    {
      && Fresh() && order != [] && p == order[0] && p in heap && BufferOk() && Holds(path, shown) && '\0' !in shown
      && Visited(fs, v, Visit(shown, heap[p].info, heap[p].level), TheView())
    }

    /** From a directory to its first entry, or back to itself if it has none. */
    method ReadInside(c: nat, ghost v: View) returns (p: nat, ghost shown: string)
      requires Static(fs) && Fresh() && TreeOk(fs, v) && TheView() == v && c == order[0] && heap[c].info == D
      requires BufferOk()
      modifies this`heap, this`nextId, this`path, this`addr, this`order, this`rank, this`meta, this`later
      ensures Showing(v, p, shown)
    {
      var head := Build(c, v);
      if head.Some? {
        p := head.value;
        ShowName(p, heap[p].parent.value, v.meta[c].full);
        shown := meta[p].full;
        CurrentMeta(fs, TheView());
      } else {
        p, shown := c, v.meta[c].full[..Append(v.meta[c].full)];
      }
    }

    /** From any other node to the next one. */
    method ReadOn(c: nat, ghost v: View) returns (p: nat, ghost shown: string)
      requires Static(fs) && Fresh() && TreeOk(fs, v) && TheView() == v && c == order[0] && heap[c].info != D
      requires BufferOk()
      requires |order| > 2
      modifies this`heap, this`path, this`order, this`rank, this`meta, this`later
      ensures Showing(v, p, shown)
    {
      p := MoveOn(c, v);
      shown := v.later[0].m.full;
      SetView(HeadSet(Popped(v), Stepped(v.h[p], v.later[0])));
      PopVisit(fs, v);
      ShownName(fs, v);
    }

    method Advance(c: nat, ghost v: View) returns (p: nat, ghost shown: string)
      requires Static(fs) && Fresh() && TreeOk(fs, v) && TheView() == v && c == order[0] && BufferOk()
      requires heap[c].info == D || |order| > 2
      modifies this`heap, this`nextId, this`path, this`addr, this`order, this`rank, this`meta, this`later
      ensures Showing(v, p, shown)
    {
      if heap[c].info == D {
        p, shown := ReadInside(c, v);
      } else {
        p, shown := ReadOn(c, v);
      }
    }

    /** The last node: it and the parent of the roots are freed. */
    method Finish(c: nat)
      requires Static(fs) && Fresh() && TreeOk(fs, TheView()) && c == order[0] && |order| == 2
      modifies this`heap, this`cur
      ensures cur == None && heap == map[]
    {
      assert NextAt(heap, order, 0) && NodeOk(fs, TheView(), c, Root(order));
      var p := heap[c].parent.value;
      FreeNode(c);
      FreeNode(p);
      cur := None;
    }

    /** The node that has been moved to becomes the current one. */
    method Show(p: nat, ghost v: View, ghost shown: string) returns (visit: Visit)
      requires streamLive && pathLive && Static(fs) && Showing(v, p, shown) && todo == Remaining(fs, v)
      modifies this`cur, this`todo
      ensures Valid() && visit == Visit(shown, heap[p].info, heap[p].level) && old(todo) == [visit] + todo
    {
      HoldsString(path, shown);
      visit := Visit(CString(path), heap[p].info, heap[p].level);
      cur, todo := Some(p), Remaining(fs, TheView());
    }

    /** The next node is shown, unless the current one is the last. */
    method ReadNext(c: nat) returns (visit: Visit)
      requires Valid() && cur == Some(c) && c in heap && (heap[c].info == D || |order| > 2)
      modifies this
      ensures Valid() && old(todo) == [visit] + todo && Holds(path, visit.path)
    {
      ghost var v := TheView();
      var p;
      ghost var shown;
      p, shown := Advance(c, v);
      visit := Show(p, v, shown);
    }

    /** What fts_open leaves for no arguments: a current node that leads nowhere. */
    ghost predicate Hollow()
      reads this
    {
      && streamLive && pathLive && cur.Some? && heap.Keys == {cur.value}
      && var n := heap[cur.value]; n.link == None && n.parent == None && n.info == Init && n.level == 0
    }

    /** Neither link nor parent: the code goes on to read the level of a null pointer. */
    predicate LeadsNowhere(c: nat)
      requires c in heap
      reads this
    {
      heap[c].link.None? && heap[c].parent.None?
    }

    /**
     * The visits come in the order of depth-first search; after the last one every node has been
     * freed. A stream that was opened for no arguments faults.
     */
    method Read() returns (visit: Option<Visit>, faulted: bool)
      requires Valid() || Hollow()
      modifies this
      ensures faulted <==> old(Hollow())
      ensures !faulted ==> Valid()
      ensures !faulted && old(todo) == [] ==> visit == None && cur == None && heap == map[]
      ensures !faulted && old(todo) != [] ==>
        visit == Some(old(todo)[0]) && todo == old(todo)[1..] && Holds(path, visit.value.path)
    {
      if cur.None? {
        return None, false;
      }
      var c := cur.value;
      LeadsOn(c);
      if heap[c].info != D && LeadsNowhere(c) {
        FreeNode(c);
        return None, true;
      }
      visit := ReadValid(c);
      faulted := false;
    }

    lemma LeadsOn(c: nat)
      requires (Valid() || Hollow()) && cur == Some(c)
      ensures c in heap && (LeadsNowhere(c) <==> Hollow()) && (Hollow() <==> !Valid())
    {
      if Valid() {
        LastIff(fs, TheView());
      }
    }

    method ReadValid(c: nat) returns (visit: Option<Visit>)
      requires Valid() && cur == Some(c)
      modifies this
      ensures Valid()
      ensures old(todo) == [] ==> visit == None && cur == None && heap == map[]
      ensures old(todo) != [] ==> visit == Some(old(todo)[0]) && todo == old(todo)[1..] && Holds(path, visit.value.path)
    {
      LastIff(fs, TheView());
      if heap[c].info != D && heap[c].link.None? && heap[heap[c].parent.value].level == -1 {
        NothingLeft(fs, TheView());
        Finish(c);
        visit := None;
      } else {
        var next := ReadNext(c);
        visit := Some(next);
      }
    }

    /** Following the pointers reaches every node once. */
    method FreeAll(first: nat, ghost list: seq<nat>, ghost ranks: map<nat, nat>)
      requires Shape(heap, list, ranks) && Levelled(heap, list) && first == list[0]
      modifies this`heap
      ensures heap == map[]
    {
      ghost var h, i := heap, 0;
      var p := first;
      while heap[p].level >= 0
        invariant 0 <= i < |list| && p == list[i]
        invariant forall id :: id in heap <==> id in h && ranks[id] < |list| - i
        invariant forall id | id in heap :: heap[id] == h[id]
        decreases |list| - i
      {
        assert LevelAt(h, list, i) && NextAt(h, list, i);
        var freep := p;
        p := if heap[p].link.Some? then heap[p].link.value else heap[p].parent.value;
        FreeNode(freep);
        i := i + 1;
      }
      assert LevelAt(h, list, i);
      FreeNode(p);
    }

    /** fts_close frees what is still allocated: each node once, the path buffer and the stream. */
    method Close() returns (faulted: bool)
      requires Valid() || Hollow()
      modifies this
      ensures faulted <==> old(Hollow())
      ensures !faulted ==> Closed()
    {
      if cur.Some? {
        var c := cur.value;
        LeadsOn(c);
        if LeadsNowhere(c) {
          FreeNode(c);
          return true;
        }
        AllLevelled(fs, TheView());
        FreeAll(c, order, rank);
        cur := None;
      }
      path, pathLive, streamLive, faulted := [], false, false, false;
    }

    // -------------------------------------------------------------- fts_open

    /** fts_lfree on the list of roots, and free on their parent. */
    method FreeRoots(root: Option<nat>, up: nat, ghost ids: seq<nat>, ghost args: seq<string>)
      requires Roots(fs, heap, up, ids, args, addr) && root == if ids == [] then None else Some(ids[0])
      modifies this`heap
      ensures heap == map[]
    {
      ghost var (h, k) := (heap, 0);
      IdsAllocated(fs, h, up, ids, args, addr);
      var p := root;
      while p.Some?
        invariant 0 <= k <= |ids| && p == if k < |ids| then Some(ids[k]) else None
        invariant forall id | id in heap :: id == up || exists i :: k <= i < |ids| && ids[i] == id
        invariant up in heap && forall i | k <= i < |ids| :: ids[i] in h && ids[i] in heap && heap[ids[i]] == h[ids[i]]
        decreases |ids| - k
      {
        assert RootAt(fs, h, up, ids, args, addr, k);
        var freep := p.value;
        p := heap[freep].link;
        FreeNode(freep);
        k := k + 1;
      }
      FreeNode(up);
    }

    /** One root more at the end of the list. */
    method AddRoot(arg: string, up: nat, tail: Option<nat>, ghost ids: seq<nat>, ghost args: seq<string>)
        returns (p: nat)
      requires Roots(fs, heap, up, ids, args, addr) && Fresh() && |ids| < |args| && arg == args[|ids|]
      requires tail == if ids == [] then None else Some(ids[|ids| - 1])
      modifies this`heap, this`nextId
      ensures Roots(fs, heap, up, ids + [p], args, addr) && Fresh() && p == old(nextId)
    {
      ghost var h := heap;
      p, nextId := nextId, nextId + 1;
      AppendRoot(fs, h, up, ids, args, addr, p);
      AppendNode(p, RootNode(fs, arg, up, None, addr), tail, ids);
      assert heap == Appended(h, ids, p, RootNode(fs, args[|ids|], up, None, addr));
    }

    /** The loop over the arguments; `ok` unless one of them is empty, and then everything is freed again. */
    method OpenRoots(argv: seq<string>, up: nat) returns (ok: bool, root: Option<nat>, ghost ids: seq<nat>)
      requires Roots(fs, heap, up, [], argv, addr) && Fresh()
      modifies this`heap, this`nextId
      ensures Fresh() && (ok <==> forall i | 0 <= i < |argv| :: argv[i] != "")
      ensures ok ==> |ids| == |argv| && Roots(fs, heap, up, ids, argv, addr)
      ensures ok ==> root == if ids == [] then None else Some(ids[0])
      ensures !ok ==> heap == map[]
    {
      var tail, i := None, 0;
      root, ids := None, [];
      while i < |argv|
        invariant 0 <= i == |ids| <= |argv| && Roots(fs, heap, up, ids, argv, addr) && Fresh()
        invariant forall k | 0 <= k < i :: argv[k] != ""
        invariant root == (if ids == [] then None else Some(ids[0])) &&
          tail == if ids == [] then None else Some(ids[|ids| - 1])
      {
        if |argv[i]| == 0 {
          FreeRoots(root, up, ids, argv);
          ok := false;
          return;
        }
        var p := AddRoot(argv[i], up, tail, ids, argv);
        if root.None? {
          root := Some(p);
        }
        tail, ids, i := Some(p), ids + [p], i + 1;
      }
      ok := true;
    }

    /** The dummy node in front of the roots. */
    method AddDummy(root: Option<nat>) returns (dummy: nat)
      requires Fresh()
      modifies this`heap, this`nextId
      ensures Fresh() && dummy !in old(heap)
      ensures heap == old(heap)[dummy := Node("", None, root, 0, Init, Ino(0, 0), 0, addr)]
    {
      dummy := nextId;
      nextId := nextId + 1;
      heap := heap[dummy := Node("", None, root, 0, Init, Ino(0, 0), 0, addr)];
    }

    method Start(dummy: nat, ghost argv: seq<string>, ghost up: nat, ghost ids: seq<nat>)
      requires Static(fs) && ArgsOk(fs, argv) && Fresh() && Ready(fs, heap, up, ids, argv, dummy, addr, |path|)
      requires streamLive && pathLive
      modifies this`cur, this`order, this`rank, this`meta, this`later, this`todo
      ensures Valid() && todo == WalkRoots(fs, argv)
    {
      ghost var v := TreeOfRoots(fs, heap, up, ids, argv, dummy, addr, |path|);
      SetView(v);
      cur, todo := Some(dummy), WalkRoots(fs, argv);
    }

    /** The nodes are there: the traversal starts, or without roots their parent is freed again. */
    method StartOn(argv: seq<string>, up: nat, root: Option<nat>, ghost ids: seq<nat>)
      requires Static(fs) && ArgsOk(fs, argv) && Fresh() && Roots(fs, heap, up, ids, argv, addr) && streamLive
      requires pathLive
      requires |ids| == |argv| && root == (if ids == [] then None else Some(ids[0])) && forall i | 0 <= i < |argv| ::
        |argv[i]| < |path|
      modifies this`heap, this`nextId, this`cur, this`order, this`rank, this`meta, this`later, this`todo
      ensures argv != [] ==> Valid() && todo == WalkRoots(fs, argv)
      ensures argv == [] ==> Hollow()
    {
      ghost var h := heap;
      var dummy := AddDummy(root);
      if |argv| == 0 {
        cur := Some(dummy);
        FreeNode(up);
      } else {
        DummyReady(fs, h, up, ids, argv, dummy, addr, |path|);
        Start(dummy, argv, up, ids);
      }
    }

    /**
     * Fails exactly if an argument is empty. With no arguments at all there is nothing that the
     * current node leads to; otherwise a search from each of them is ahead.
     */
    method Open(argv: seq<string>) returns (ok: bool)
      requires Closed() && forall i | 0 <= i < |argv| && argv[i] != "" :: ArgOk(fs, argv[i])
      modifies this
      ensures ok <==> forall i | 0 <= i < |argv| :: argv[i] != ""
      ensures ok && argv != [] ==> Valid() && todo == WalkRoots(fs, argv)
      ensures ok && argv == [] ==> Hollow()
      ensures !ok ==> Closed()
    {
      streamLive := true;
      var longest := MaxArgLen(argv);
      path, pathLive := [], true;
      var _ := Palloc(if longest > PATH_MAX then longest else PATH_MAX);
      var up := nextId;
      nextId := nextId + 1;
      heap := heap[up := Node("", None, None, -1, Unset, Ino(0, 0), 0, addr)];
      var root;
      ghost var ids;
      ok, root, ids := OpenRoots(argv, up);
      if ok {
        StartOn(argv, up, root, ids);
      } else {
        path, pathLive, streamLive := [], false, false;
      }
    }

    /** Reading to the end gives all that was to be visited, and then no node is allocated. */
    method ReadAll() returns (visits: seq<Visit>)
      requires Valid()
      modifies this
      ensures Valid() && visits == old(todo) && heap == map[]
      decreases |todo|
    {
      visits := [];
      NotHollow();
      var visit, faulted := Read();
      if visit.Some? {
        var rest := ReadAll();
        visits := [visit.value] + rest;
      }
    }

    lemma NotHollow()
      requires Valid()
      ensures !Hollow()
    {
      if cur.Some? {
        LeadsOn(cur.value);
      }
    }

    /** A whole traversal makes the visits of the recursive search and leaves nothing allocated. */
    method Traverse(argv: seq<string>) returns (r: Traversal)
      requires Closed() && forall i | 0 <= i < |argv| && argv[i] != "" :: ArgOk(fs, argv[i])
      modifies this
      ensures r == Faulted <==> argv == []
      ensures r == NotOpened <==> "" in argv
      ensures argv != [] && "" !in argv ==> r == Walked(WalkRoots(fs, argv))
      ensures argv != [] ==> Closed()
    {
      var ok := Open(argv);
      if !ok {
        return NotOpened;
      }
      if |argv| == 0 {
        var _, _ := Read();
        return Faulted;
      }
      var visits := ReadAll();
      NotHollow();
      var _ := Close();
      r := Walked(visits);
    }
  }

  datatype Traversal = NotOpened | Faulted | Walked(visits: seq<Visit>)

  lemma DummyReady(
      fs: FileSystem, h: map<nat, Node>, up: nat, ids: seq<nat>, argv: seq<string>, dummy: nat, addr: nat, cap: nat)
    requires ArgsOk(fs, argv) && argv != [] && Roots(fs, h, up, ids, argv, addr) && |ids| == |argv| && dummy !in h
    requires forall i | 0 <= i < |argv| :: |argv[i]| < cap
    ensures Ready(fs, h[dummy := Node("", None, Some(ids[0]), 0, Init, Ino(0, 0), 0, addr)], up, ids, argv, dummy, addr,
      cap)
  {
    var h' := h[dummy := Node("", None, Some(ids[0]), 0, Init, Ino(0, 0), 0, addr)];
    assert h' - {dummy} == h;
    IdsAllocated(fs, h, up, ids, argv, addr);
  }

  /** fts_maxarglen: room for the longest argument and its terminator. */
  method MaxArgLen(argv: seq<string>) returns (n: nat)
    ensures forall i | 0 <= i < |argv| :: |argv[i]| < n
    ensures argv != [] ==> exists i :: 0 <= i < |argv| && n == |argv[i]| + 1
  {
    var max, k := 0, 0;
    while k < |argv|
      invariant 0 <= k <= |argv| && forall i | 0 <= i < k :: |argv[i]| <= max
      invariant if k == 0 then max == 0 else exists i :: 0 <= i < k && max == |argv[i]|
    {
      if |argv[k]| > max {
        max := |argv[k]|;
      }
      k := k + 1;
    }
    n := max + 1;
  }

  lemma IdsAllocated(fs: FileSystem, h: map<nat, Node>, up: nat, ids: seq<nat>, args: seq<string>, addr: nat)
    requires Roots(fs, h, up, ids, args, addr)
    ensures forall i | 0 <= i < |ids| :: ids[i] in h
  {
    forall i | 0 <= i < |ids| ensures ids[i] in h {
      assert RootAt(fs, h, up, ids, args, addr, i);
    }
  }

  lemma LastIff(fs: FileSystem, v: View)
    requires TreeOk(fs, v)
    ensures var n := v.h[v.order[0]];
            && (n.link == None ==> n.parent.Some? && n.parent.value in v.h)
            && (|v.order| == 2 <==> n.link == None && v.h[n.parent.value].level == -1)
  {
    var c := v.order[0];
    assert NextAt(v.h, v.order, 0) && NodeOk(fs, v, c, Root(v.order));
    if |v.order| > 2 {
      NextFacts(fs, v);
    }
  }

  lemma AllLevelled(fs: FileSystem, v: View)
    requires TreeOk(fs, v)
    ensures Levelled(v.h, v.order)
  {
    forall k | 0 <= k < |v.order| ensures LevelAt(v.h, v.order, k) {
      if k < |v.order| - 1 {
        assert NodeOk(fs, v, v.order[k], Root(v.order));
      }
    }
  }

  lemma ShownName(fs: FileSystem, v: View)
    requires TreeOk(fs, v) && |v.order| > 2
    ensures |v.later| > 0 && '\0' !in v.later[0].m.full && v.order[1] in v.meta && v.later[0].m == v.meta[v.order[1]]
  {
    NextFacts(fs, v);
  }

  lemma CurrentMeta(fs: FileSystem, v: View)
    requires TreeOk(fs, v)
    ensures v.h[v.order[0]].info != Init ==> v.order[0] in v.meta && MetaOk(fs, v.meta[v.order[0]])
  {
    TreeTasks(fs, v);
  }

  /** Below the roots no path ends in a slash. */
  lemma EmptyEnd(fs: FileSystem, v: View)
    requires TreeOk(fs, v) && v.h[v.order[0]].info == D && v.order[0] in v.meta && v.meta[v.order[0]].full != ""
    ensures v.h[v.order[0]].level > 0 ==> var full := v.meta[v.order[0]].full; full[..Append(full)] == full
  {
    var c := v.order[0];
    assert NodeOk(fs, v, c, Root(v.order));
    if v.h[c].level > 0 {
      ProperEnd(v.meta[v.h[c].parent.value].full, v.h[c].name);
    }
  }

  /** The path of a directory entry does not end in a slash. */
  lemma ProperEnd(path: string, name: string)
    requires path != "" && ProperName(name)
    ensures var full := Join(path, name); full != "" && full[..Append(full)] == full
  {
    var full := Join(path, name);
    assert full[|full| - 1] == name[|name| - 1];
  }

  /** What ToSibling needs to know; the directory's path if the nodes are not roots. */
  lemma SiblingPlace(fs: FileSystem, v: View, path: seq<char>) returns (dir: string)
    requires Static(fs) && TreeOk(fs, v) && |v.order| > 2 && v.h[v.order[0]].link.Some? && v.cap == |path|
    requires v.h[v.order[0]].info != Init && v.h[v.order[0]].level > 0 ==>
      v.order[0] in v.meta && Holds(path, v.meta[v.order[0]].full)
    ensures v.order[1] in v.h && v.h[v.order[1]].info != Init
    ensures var (n, full) := (v.h[v.order[1]], v.later[0].m.full);
            && (n.level == 0 ==> full == n.name)
            && (n.level != 0 ==>
                  && dir != "" && Append(dir) < |path| && path[..Append(dir)] == dir[..Append(dir)]
                  && path[Append(dir)] == '/'
                  && full == Join(dir, n.name) && n.pathlen == |full|
                  && n.parent.Some? && n.parent.value in v.h && n.parent.value != v.order[0]
                  && v.h[n.parent.value].pathAddr == v.addr && v.h[n.parent.value].pathlen == |dir|)
  {
    NextFacts(fs, v);
    assert NodeOk(fs, v, v.order[0], Root(v.order));
    dir := "";
    if v.h[v.order[1]].level != 0 {
      SiblingFacts(fs, v);
      dir := v.meta[v.h[v.order[1]].parent.value].full;
      ProperEnd(dir, v.h[v.order[0]].name);
      InBuffer(path, dir, v.h[v.order[0]].name);
    }
  }

  lemma InBuffer(path: seq<char>, dir: string, name: string)
    requires dir != "" && Holds(path, Join(dir, name))
    ensures Append(dir) < |path| && path[..Append(dir)] == dir[..Append(dir)] && path[Append(dir)] == '/'
  {
    var full := Join(dir, name);
    assert path[..|full|][..Append(dir)] == path[..Append(dir)];
    assert full[Append(dir)] == '/' && path[..|full|][Append(dir)] == path[Append(dir)];
  }

  lemma NextFacts(fs: FileSystem, v: View)
    requires TreeOk(fs, v) && |v.order| > 2
    ensures TaskAt(v, 0) && NextAt(v.h, v.order, 0) && v.order[0] != v.order[1] && v.order[1] in v.h
    ensures v.order[1] in v.meta
    ensures v.later[0].m == v.meta[v.order[1]] && (v.later[0].entered <==> v.h[v.order[0]].link == None)
    ensures NodeOk(fs, v, v.order[1], Root(v.order)) && v.h[v.order[1]].info != Init
    ensures |v.later[0].m.full| < v.cap
  {
    assert NodeOk(fs, v, v.order[1], Root(v.order)) && TaskAt(v, 0);
  }

  /** The next node lies in the same directory as the current one, which has left the directory's path in the buffer. */
  lemma SiblingFacts(fs: FileSystem, v: View)
    requires TreeOk(fs, v) && |v.order| > 2 && v.h[v.order[0]].link.Some? && v.order[1] in v.h
    requires v.h[v.order[1]].level > 0
    ensures var (c, n) := (v.order[0], v.h[v.order[1]]);
            && n.parent.Some? && n.parent.value in v.h && n.parent.value in v.meta && n.parent.value != c && c in v.meta
            && var (u, um) := (v.h[n.parent.value], v.meta[n.parent.value]);
               && um.full != "" && u.pathAddr == v.addr && u.pathlen == |um.full|
               && v.h[c].info != Init && v.meta[c].full == Join(um.full, v.h[c].name) && ProperName(v.h[c].name)
               && v.later[0].m.full == Join(um.full, n.name)
  {
    NextFacts(fs, v);
    var (c, p) := (v.order[0], v.order[1]);
    assert NodeOk(fs, v, c, Root(v.order));
    NotChild(v.h, v.order, v.rank, p);
    DirectoryOf(fs, v, p);
  }

  lemma DirectoryOf(fs: FileSystem, v: View, id: nat)
    requires TreeOk(fs, v) && id in v.h && id != Root(v.order) && v.h[id].level > 0
    ensures v.h[id].parent.Some? && v.h[id].parent.value in v.h && v.h[v.h[id].parent.value].pathAddr == v.addr
  {
    var k :| 0 <= k < |v.order| && v.order[k] == id;
    assert NodeOk(fs, v, v.order[k], Root(v.order));
    var up := v.h[id].parent.value;
    var j :| 0 <= j < |v.order| && v.order[j] == up;
    assert NodeOk(fs, v, v.order[j], Root(v.order));
  }

  /** The next node is the directory that the current one lies in. */
  lemma ParentFacts(fs: FileSystem, v: View)
    requires TreeOk(fs, v) && |v.order| > 2 && v.h[v.order[0]].link == None
    ensures var (c, p) := (v.order[0], v.order[1]);
            && v.h[c].parent == Some(p) && c in v.meta && p in v.h && p in v.meta && v.h[c].info != Init
            && v.h[c].level > 0
            && v.h[p].pathlen == |v.meta[p].full| <= |v.meta[c].full|
            && v.meta[c].full[..|v.meta[p].full|] == v.meta[p].full
            && ProperName(v.h[c].name)
  {
    NextFacts(fs, v);
    var (c, p) := (v.order[0], v.order[1]);
    assert NodeOk(fs, v, c, Root(v.order));
    assert p != Root(v.order);
    JoinPrefix(v.meta[p].full, v.h[c].name);
  }

  lemma FirstKid(fs: FileSystem, v: View, v': View, kids: seq<nat>, es: seq<Entry>)
    requires Entering(fs, v, v', kids, es) && Ranked(v.order, v.rank)
    ensures var (c, p, m) := (v.order[0], kids[0], v.meta[v.order[0]]);
            && v'.order[0] == p && p in v'.h && p in v'.meta && v'.h[p].parent == Some(c)
            && c in v'.h && v'.h[c].pathAddr == v'.addr && v'.h[c].pathlen == |m.full|
            && v'.meta[p].full == Join(m.full, v'.h[p].name) && |v'.meta[p].full| < v'.cap && v'.h[p].info != DP
            && v'.h[p].info != Init
  {
    KidFacts(fs, v, v', kids, es, 0);
    OrderIndex(kids, v.order, 0);
    NotRoot(v.order, v.rank);
  }

  lemma NotRoot(order: seq<nat>, rank: map<nat, nat>)
    requires |order| >= 2 && Ranked(order, rank)
    ensures order[0] != Root(order)
  {
  }

  lemma ListShape(fs: FileSystem, v: View, h: map<nat, Node>, kids: seq<nat>, es: seq<Entry>, cap: nat)
    requires TreeOk(fs, v) && v.order[0] in v.meta && kids != []
    requires Built(fs, v.h, h, kids, es, v.order[0], v.meta[v.order[0]], v.h[v.order[0]].ino, cap)
    ensures Shape(h, kids + v.order, RankWith(v.rank, kids, |v.order|)) && Levelled(h, kids + v.order)
    ensures Root(kids + v.order) == Root(v.order) && Append(v.meta[v.order[0]].full) + 1 < cap
  {
    var c := v.order[0];
    RankWithGrows(v.rank, kids, |v.order|);
    PushShape(v.h, h, kids, v.order, v.rank, RankWith(v.rank, kids, |v.order|));
    SameRoot(kids, v.order);
    assert KidAt(fs, h, kids, es, v.meta[c], v.h[c].ino, cap, 0);
    forall k | 0 <= k < |kids + v.order| ensures LevelAt(h, kids + v.order, k) {
      OrderIndex(kids, v.order, k);
      if k < |kids| {
        assert KidAt(fs, h, kids, es, v.meta[c], v.h[c].ino, cap, k);
      } else {
        OldLevel(fs, v, h, kids, k - |kids|);
      }
    }
  }

  lemma OldLevel(fs: FileSystem, v: View, h: map<nat, Node>, kids: seq<nat>, k: nat)
    requires Covers(v.h, v.order) && NodesOk(fs, v) && Grown(v.h, h, kids) && k < |v.order|
    ensures v.order[k] in h && (h[v.order[k]].level >= 0 <==> k < |v.order| - 1)
  {
    if k < |v.order| - 1 {
      assert NodeOk(fs, v, v.order[k], Root(v.order));
    }
  }

  lemma DirectoryFacts(fs: FileSystem, v: View)
    requires TreeOk(fs, v) && v.h[v.order[0]].info == D
    ensures var c := v.order[0];
            && c in v.meta && MetaOk(fs, v.meta[c]) && |v.meta[c].full| < v.cap
            && Inside(v.h[c], v.meta[c]) && v.h[c].level >= 0 && v.h[c].pathAddr == v.addr && Climbing(v, c)
    ensures Addressed(v.h, Root(v.order), v.addr)
  {
    assert NodeOk(fs, v, v.order[0], Root(v.order));
    TreeClimbs(fs, v);
    forall id | id in v.h && id != Root(v.order) ensures v.h[id].pathAddr == v.addr {
      var k :| 0 <= k < |v.order| && v.order[k] == id;
      assert NodeOk(fs, v, v.order[k], Root(v.order));
      if k > 0 {
        assert TaskAt(v, k - 1);
      }
    }
  }

  /** One more than the directory's own level, up to FTS_MAXLEVEL, is the depth of what it contains. */
  lemma LevelBelow(fs: FileSystem, v: View)
    requires TreeOk(fs, v) && v.h[v.order[0]].info == D
    ensures var (n, m) := (v.h[v.order[0]], v.meta[v.order[0]]);
            Depth(m.anc + {n.ino}) == (if n.level < MAXLEVEL then n.level + 1 else n.level) > 0
  {
    assert NodeOk(fs, v, v.order[0], Root(v.order));
    DirectoryFacts(fs, v);
  }

  /** The nodes that fts_open makes, as a view. */
  lemma TreeOfRoots(
      fs: FileSystem, h: map<nat, Node>, up: nat, ids: seq<nat>, args: seq<string>, dummy: nat, addr: nat, cap: nat)
      returns (v: View)
    requires Static(fs) && ArgsOk(fs, args) && Ready(fs, h, up, ids, args, dummy, addr, cap)
    ensures v.h == h && v.addr == addr && v.cap == cap && TreeOk(fs, v)
    ensures v.order[0] == dummy && v.h[dummy].info == Init && Remaining(fs, v) == WalkRoots(fs, args)
  {
    OpenTree(fs, h, up, ids, args, dummy, addr, cap);
    v := Opened(fs, h, up, ids, args, dummy, addr, cap);
  }

  lemma AllEntriesOk(fs: FileSystem, m: Meta, ino: Ino)
    requires Static(fs) && MetaOk(fs, m) && m.target == ToDir(ino)
    ensures EntriesOk(fs, fs.dirs[ino], m, ino)
  {
    forall k | 0 <= k < |fs.dirs[ino]| ensures EntryOk(fs, fs.dirs[ino], m, ino, k) {
      EntryMeta(fs, m, ino, k);
    }
  }

  lemma StartList(fs: FileSystem, v: View)
    requires |v.order| > 0 && v.order[0] in v.h && v.order[0] in v.meta && v.meta[v.order[0]].full != ""
    ensures Built(fs, v.h, v.h, [], [], v.order[0], v.meta[v.order[0]], v.h[v.order[0]].ino, v.cap)
  {
  }

  ghost predicate LevelAt(h: map<nat, Node>, order: seq<nat>, k: nat)
    requires Covers(h, order) && k < |order|
  {
    h[order[k]].level >= 0 <==> k < |order| - 1
  }

  /** Only the last node has a negative level. */
  ghost predicate Levelled(h: map<nat, Node>, order: seq<nat>)
    requires Covers(h, order)
  {
    forall k {:trigger LevelAt(h, order, k)} | 0 <= k < |order| :: LevelAt(h, order, k)
  }

  ghost predicate Readdressed(h: map<nat, Node>, h': map<nat, Node>, root: nat, addr: nat) {
    h'.Keys == h.Keys && forall id | id in h :: h'[id] == if id == root then h[id] else h[id].(pathAddr := addr)
  }

  /** The visible ones of the first i entries. */
  ghost function VisibleTo(es: seq<Entry>, i: nat): seq<Entry>
    requires i <= |es|
  {
    if i == 0 then [] else if IsDot(es[i - 1].name) then VisibleTo(es, i - 1) else VisibleTo(es, i - 1) + [es[i - 1]]
  }

  lemma VisibleToNext(es: seq<Entry>, i: nat)
    requires i < |es|
    ensures VisibleTo(es, i + 1) == if IsDot(es[i].name) then VisibleTo(es, i) else VisibleTo(es, i) + [es[i]]
  {
  }

  lemma {:induction false} VisibleToTake(es: seq<Entry>, i: nat)
    requires i <= |es|
    ensures VisibleTo(es, i) == Visible(es[..i])
  {
    if i > 0 {
      VisibleToTake(es, i - 1);
      VisibleAppend(es[..i - 1], es[i - 1]);
      assert es[..i] == es[..i - 1] + [es[i - 1]];
    }
  }

  lemma VisibleToAll(es: seq<Entry>)
    ensures VisibleTo(es, |es|) == Visible(es)
  {
    VisibleToTake(es, |es|);
    assert es[..|es|] == es;
  }

  /** All nodes but the parent of the roots point to the buffer. */
  ghost predicate Addressed(h: map<nat, Node>, root: nat, addr: nat) {
    forall id | id in h && id != root :: h[id].pathAddr == addr
  }

  lemma MakesKid(fs: FileSystem, n: Node, e: Entry, m: Meta, ino: Ino, cap: nat)
    requires m.full != "" && MetaOk(fs, KidMeta(m, ino, e)) && ProperName(e.name) && |Join(m.full, e.name)| < cap
    requires n.name == e.name && n.level == Depth(m.anc + {ino}) > 0 && n.pathlen == |Join(m.full, e.name)|
    requires n.info == InfoOf(e.target, m.anc + {ino})
    requires e.target.ToDir? ==> n.ino == e.target.ino
    ensures KidOk(fs, n, e, m, ino, cap) && n.info != Init
  {
  }

  lemma ListedBefore(h: map<nat, Node>, kids: seq<nat>, up: nat, p: nat)
    requires KidLinks(h, kids, up) && forall id | id in h :: id < p
    ensures p !in h && (kids != [] ==> kids[|kids| - 1] in h && kids[|kids| - 1] < p)
  {
    if kids != [] {
      assert KidLink(h, kids, up, |kids| - 1);
    }
  }

  /** From this node the way up leads through directories that the traversal is inside of. */
  ghost predicate ChainNode(v: View, id: nat)
    requires id in v.h
  {
    var n := v.h[id];
    n.level >= 0 && n.info != Init ==>
      && id in v.meta && n.parent.Some? && n.parent.value in v.h
      && id in v.rank && n.parent.value in v.rank && v.rank[n.parent.value] < v.rank[id]
      && (n.level == 0 ==> v.meta[id].anc == {} && v.h[n.parent.value].level == -1)
      && (n.level > 0 ==>
        v.h[n.parent.value].level >= 0 && n.parent.value in v.meta &&
          Below(n, v.meta[id], v.h[n.parent.value], v.meta[n.parent.value]))
  }

  ghost predicate Climbing(v: View, c: nat) {
    && (forall id {:trigger ChainNode(v, id)} | id in v.h :: ChainNode(v, id))
    && c in v.h && c in v.meta && Inside(v.h[c], v.meta[c]) && v.h[c].level >= 0
  }

  lemma TreeClimbs(fs: FileSystem, v: View)
    requires TreeOk(fs, v)
    ensures forall id {:trigger ChainNode(v, id)} | id in v.h :: ChainNode(v, id)
  {
    forall id | id in v.h ensures ChainNode(v, id) {
      var k :| 0 <= k < |v.order| && v.order[k] == id;
      assert ParentLater(v.h, v.rank, id);
      if k < |v.order| - 1 {
        assert NodeOk(fs, v, v.order[k], Root(v.order));
        var p := v.h[id].parent;
        if p.Some? && p.value != Root(v.order) {
          var j :| 0 <= j < |v.order| && v.order[j] == p.value;
          assert NodeOk(fs, v, v.order[j], Root(v.order));
        }
      }
    }
  }

  ghost predicate EntriesOk(fs: FileSystem, es: seq<Entry>, m: Meta, ino: Ino)
    requires m.full != ""
  {
    forall k {:trigger EntryOk(fs, es, m, ino, k)} | 0 <= k < |es| :: EntryOk(fs, es, m, ino, k)
  }

  ghost predicate EntryOk(fs: FileSystem, es: seq<Entry>, m: Meta, ino: Ino, k: nat)
    requires m.full != "" && k < |es|
  {
    ProperName(es[k].name) && MetaOk(fs, KidMeta(m, ino, es[k]))
  }
}
