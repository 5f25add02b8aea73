/** What a traversal of a directory graph should visit, as recursive depth-first search. */
module FtsSpec {
  datatype Ino = Ino(dev: nat, ino: nat)

  datatype Info = Unset | Init | D | DC | DP | F | SL | SLNONE | NS | Default

  datatype Target = ToDir(ino: Ino) | ToLeaf(info: Info)

  datatype Entry = Entry(name: string, target: Target)

  /** Directories by device and inode, and what a path leads to. */
  datatype FileSystem = FileSystem(dirs: map<Ino, seq<Entry>>, resolve: string -> Target)

  /** What fts_read shows: the path in the buffer, the kind of visit and fts_level. */
  datatype Visit = Visit(path: string, info: Info, level: int)

  const MAXLEVEL: nat := 0x7fff   // FTS_MAXLEVEL

  /** The fts_level of a file with the directories `anc` above it. */
  ghost function Depth(anc: set<Ino>): nat { if |anc| < MAXLEVEL then |anc| else MAXLEVEL }

  /** A directory entry's name. */
  ghost predicate ProperName(name: string) { name != "" && '\0' !in name && '/' !in name }

  predicate IsDot(name: string) { name == "." || name == ".." }

  /** Directory entries other than "." and "..". */
  function Visible(es: seq<Entry>): seq<Entry> {
    if es == [] then []
    else if IsDot(es[0].name) then Visible(es[1..])
    else [es[0]] + Visible(es[1..])
  }

  /** Where a slash goes: in place of one that is already at the end. */
  function Append(path: string): nat
    requires path != ""
  {
    if path[|path| - 1] == '/' then |path| - 1 else |path|
  }

  function Join(path: string, name: string): (r: string)
    requires path != ""
    ensures |r| == Append(path) + 1 + |name| && path <= r
  {
    path[..Append(path)] + "/" + name
  }

  /** After an empty directory the slash at the end of its path is gone. */
  function PostPath(path: string, es: seq<Entry>): string
    requires path != ""
  {
    if es == [] then path[..Append(path)] else path
  }

  /** NS is for what does not exist. */
  predicate Leaf(info: Info) { info.F? || info.SL? || info.SLNONE? || info.NS? || info.Default? }

  predicate Known(dirs: map<Ino, seq<Entry>>, t: Target) {
    if t.ToDir? then t.ino in dirs else Leaf(t.info)
  }

  /** Entries of a directory, with what has to be known about them. */
  ghost predicate KnownEntries(dirs: map<Ino, seq<Entry>>, es: seq<Entry>) {
    forall k | 0 <= k < |es| :: Known(dirs, es[k].target)
  }

  lemma {:induction false} VisibleKnown(dirs: map<Ino, seq<Entry>>, es: seq<Entry>)
    requires KnownEntries(dirs, es)
    ensures KnownEntries(dirs, Visible(es))
  {
    if es != [] {
      VisibleKnown(dirs, es[1..]);
    }
  }

  ghost predicate Sealed(dirs: map<Ino, seq<Entry>>) {
    forall i | i in dirs :: KnownEntries(dirs, dirs[i])
  }

  /** A static finite graph: every entry leads somewhere, and paths lead where the entries say. */
  ghost predicate Static(fs: FileSystem) {
    && Sealed(fs.dirs)
    && (forall i, k | i in fs.dirs && 0 <= k < |fs.dirs[i]| :: ProperName(fs.dirs[i][k].name))
    && (forall path, i, k {:trigger Join(path, fs.dirs[i][k].name)} | path != "" && i in fs.dirs &&
      fs.resolve(path) == ToDir(i) && 0 <= k < |fs.dirs[i]| ::
          fs.resolve(Join(path, fs.dirs[i][k].name)) == fs.dirs[i][k].target)
  }

  lemma SmallerRest<T>(all: set<T>, some: set<T>, x: T)
    requires x in all && x !in some
    ensures |all - (some + {x})| < |all - some|
  {
    assert all - some == (all - (some + {x})) + {x};
  }

  /**
   * Depth-first search that does not enter a directory it is already inside of.
   * `anc` holds the directories above.
   */
  ghost function Walk(dirs: map<Ino, seq<Entry>>, path: string, t: Target, anc: set<Ino>): (r: seq<Visit>)
    requires Sealed(dirs) && Known(dirs, t) && path != ""
    ensures r != []
    decreases |dirs.Keys - anc|, 0
  {
    if t.ToLeaf? then [Visit(path, t.info, Depth(anc))]
    else if t.ino in anc then [Visit(path, DC, Depth(anc))]
    else
      SmallerRest(dirs.Keys, anc, t.ino);
      [Visit(path, D, Depth(anc))] + WalkInside(dirs, path, t.ino, anc)
  }

  /** What comes after the first visit to a directory. */
  ghost function WalkInside(dirs: map<Ino, seq<Entry>>, path: string, ino: Ino, anc: set<Ino>): seq<Visit>
    requires Sealed(dirs) && ino in dirs && ino !in anc && path != ""
    decreases |dirs.Keys - (anc + {ino})|, |Visible(dirs[ino])| + 1
  {
    VisibleKnown(dirs, dirs[ino]);
    WalkEntries(dirs, path, Visible(dirs[ino]), anc + {ino}) +
      [Visit(PostPath(path, Visible(dirs[ino])), DP, Depth(anc))]
  }

  ghost function WalkEntries(dirs: map<Ino, seq<Entry>>, path: string, es: seq<Entry>, anc: set<Ino>): seq<Visit>
    requires Sealed(dirs) && KnownEntries(dirs, es) && path != ""
    decreases |dirs.Keys - anc|, |es|
  {
    if es == [] then []
    else Walk(dirs, Join(path, es[0].name), es[0].target, anc) + WalkEntries(dirs, path, es[1..], anc)
  }

  /** In a file system without cycles directories can be numbered downwards. */
  ghost predicate Layered(dirs: map<Ino, seq<Entry>>, depth: map<Ino, nat>) {
    forall i, k | i in dirs && 0 <= k < |dirs[i]| && dirs[i][k].target.ToDir? ::
      i in depth && dirs[i][k].target.ino in depth && depth[i] < depth[dirs[i][k].target.ino]
  }

  ghost predicate Deeper(depth: map<Ino, nat>, anc: set<Ino>, t: Target) {
    t.ToDir? ==> forall a | a in anc :: a in depth && t.ino in depth && depth[a] < depth[t.ino]
  }

  ghost predicate NoDC(visits: seq<Visit>) { forall k | 0 <= k < |visits| :: visits[k].info != DC }

  ghost predicate AllDeeper(depth: map<Ino, nat>, anc: set<Ino>, es: seq<Entry>) {
    forall k | 0 <= k < |es| :: Deeper(depth, anc, es[k].target)
  }

  lemma {:induction false} VisibleDeeper(depth: map<Ino, nat>, anc: set<Ino>, es: seq<Entry>)
    requires AllDeeper(depth, anc, es)
    ensures AllDeeper(depth, anc, Visible(es))
  {
    if es != [] {
      VisibleDeeper(depth, anc, es[1..]);
    }
  }

  lemma EntriesDeeper(dirs: map<Ino, seq<Entry>>, depth: map<Ino, nat>, anc: set<Ino>, ino: Ino)
    requires Layered(dirs, depth) && ino in dirs && Deeper(depth, anc, ToDir(ino))
    ensures AllDeeper(depth, anc + {ino}, dirs[ino])
  {
  }

  /** There the search is plain depth-first search: no directory is taken for a cycle. */
  lemma {:induction false} TreesHaveNoCycles(
      dirs: map<Ino, seq<Entry>>, depth: map<Ino, nat>, path: string, t: Target, anc: set<Ino>)
    requires Sealed(dirs) && Layered(dirs, depth) && Known(dirs, t) && path != "" && Deeper(depth, anc, t)
    ensures NoDC(Walk(dirs, path, t, anc))
    decreases |dirs.Keys - anc|, 0
  {
    if t.ToDir? && t.ino !in anc {
      var es := dirs[t.ino];
      SmallerRest(dirs.Keys, anc, t.ino);
      VisibleKnown(dirs, es);
      EntriesDeeper(dirs, depth, anc, t.ino);
      VisibleDeeper(depth, anc + {t.ino}, es);
      EntriesHaveNoCycles(dirs, depth, path, Visible(es), anc + {t.ino});
    }
  }

  lemma {:induction false} EntriesHaveNoCycles(
      dirs: map<Ino, seq<Entry>>, depth: map<Ino, nat>, path: string, es: seq<Entry>, anc: set<Ino>)
    requires Sealed(dirs) && Layered(dirs, depth) && KnownEntries(dirs, es) && path != "" && AllDeeper(depth, anc, es)
    ensures NoDC(WalkEntries(dirs, path, es, anc))
    decreases |dirs.Keys - anc|, |es|
  {
    if es != [] {
      TreesHaveNoCycles(dirs, depth, Join(path, es[0].name), es[0].target, anc);
      EntriesHaveNoCycles(dirs, depth, path, es[1..], anc);
    }
  }
}

/** The nodes of an open traversal and what is still to come, as values. */
module FtsState {
  import opened Common
  import opened FtsSpec

  /** FTSENT. `pathAddr` is the address of the path buffer the node points to. */
  datatype Node = Node(name: string, parent: Option<nat>, link: Option<nat>, level: int, info: Info, ino: Ino,
                       pathlen: nat, pathAddr: nat)

  /** What a node stands for: its path, where that leads, and the directories above. */
  datatype Meta = Meta(full: string, target: Target, anc: set<Ino>)

  /** A node after the current one: a directory already entered, or a file not yet visited. */
  datatype Task = Task(m: Meta, entered: bool)

  // ---------------------------------------------------------------- what is still to come

  ghost predicate MetaOk(fs: FileSystem, m: Meta) {
    m.full != "" && '\0' !in m.full && Known(fs.dirs, m.target) && fs.resolve(m.full) == m.target &&
      m.anc <= fs.dirs.Keys
  }

  ghost predicate TasksKnown(fs: FileSystem, later: seq<Task>) {
    forall k | 0 <= k < |later| :: MetaOk(fs, later[k].m)
  }

  ghost function Pending(fs: FileSystem, t: Task): seq<Visit>
    requires Static(fs) && MetaOk(fs, t.m)
  {
    if t.entered then [Visit(t.m.full, DP, Depth(t.m.anc))] else Walk(fs.dirs, t.m.full, t.m.target, t.m.anc)
  }

  ghost function Later(fs: FileSystem, later: seq<Task>): seq<Visit>
    requires Static(fs) && TasksKnown(fs, later)
  {
    if later == [] then [] else Pending(fs, later[0]) + Later(fs, later[1..])
  }

  /** The visit that the file itself asks for. */
  function InfoOf(t: Target, anc: set<Ino>): Info {
    if t.ToLeaf? then t.info else if t.ino in anc then DC else D
  }

  /** What a node still stands for after the visit `info`. */
  ghost function Rest(fs: FileSystem, m: Meta, info: Info): seq<Visit>
    requires Static(fs) && MetaOk(fs, m) && (info == D ==> InfoOf(m.target, m.anc) == D)
  {
    if info == D then WalkInside(fs.dirs, m.full, m.target.ino, m.anc) else []
  }

  lemma WalkStarts(fs: FileSystem, m: Meta)
    requires Static(fs) && MetaOk(fs, m)
    ensures var info := InfoOf(m.target, m.anc);
            Walk(fs.dirs, m.full, m.target, m.anc) == [Visit(m.full, info, Depth(m.anc))] + Rest(fs, m, info)
  {
  }

  /** The entries that a directory's list is made of. */
  ghost function VisibleIn(fs: FileSystem, ino: Ino): seq<Entry> {
    if ino in fs.dirs then Visible(fs.dirs[ino]) else []
  }

  // ---------------------------------------------------------------- the linked nodes

  ghost predicate Covers(h: map<nat, Node>, order: seq<nat>) {
    (forall k | 0 <= k < |order| :: order[k] in h) && (forall id | id in h :: id in order)
  }

  /** Each node's distance from the end of the list; so no node is listed twice. */
  ghost predicate Ranked(order: seq<nat>, rank: map<nat, nat>) {
    forall k | 0 <= k < |order| :: order[k] in rank && rank[order[k]] == |order| - 1 - k
  }

  /** Parents are allocated and come later. */
  ghost predicate ParentsLater(h: map<nat, Node>, rank: map<nat, nat>) {
    forall id {:trigger ParentLater(h, rank, id)} | id in h :: ParentLater(h, rank, id)
  }

  ghost predicate ParentLater(h: map<nat, Node>, rank: map<nat, nat>, id: nat)
    requires id in h
  {
    var p := h[id].parent;
    p.Some? ==> p.value in h && p.value in rank && id in rank && rank[p.value] < rank[id]
  }

  /** The node that following fts_link, or else fts_parent, leads to. */
  ghost predicate Next(n: Node, id: nat, m: Node) {
    if n.info == Init then n.link == Some(id) && m.level == 0
    else if n.link.Some? then n.link.value == id && m.parent == n.parent
    else n.parent == Some(id)
  }

  ghost predicate NextAt(h: map<nat, Node>, order: seq<nat>, k: nat)
    requires Covers(h, order) && k + 1 < |order|
  {
    Next(h[order[k]], order[k + 1], h[order[k + 1]])
  }

  /**
   * `order` lists the allocated nodes as following the pointers visits them from the
   * current one on; the parent of the roots is last.
   */
  ghost predicate Shape(h: map<nat, Node>, order: seq<nat>, rank: map<nat, nat>) {
    && |order| >= 2 && Covers(h, order) && Ranked(order, rank) && ParentsLater(h, rank)
    && h[order[|order| - 2]].link == None
    && forall k | 0 <= k < |order| - 1 :: NextAt(h, order, k)
  }

  ghost function Root(order: seq<nat>): nat
    requires order != []
  {
    order[|order| - 1]
  }

  datatype View = View(h: map<nat, Node>, order: seq<nat>, rank: map<nat, nat>, meta: map<nat, Meta>, later: seq<Task>,
                       addr: nat, cap: nat)

  ghost predicate LevelOk(n: Node, root: nat) {
    n.level >= 0 && (n.level == 0 <==> n.info == Init || n.parent == Some(root))
  }

  /** A node and its meaning agree. */
  ghost predicate Means(fs: FileSystem, n: Node, m: Meta, addr: nat, cap: nat) {
    && MetaOk(fs, m) && |m.full| < cap && n.pathAddr == addr
    && (m.target.ToDir? ==> n.ino == m.target.ino)
    && n.level == Depth(m.anc) && (n.level == 0 ==> m.full == n.name && m.anc == {})
  }

  /** A directory that the traversal is inside of. */
  ghost predicate Inside(p: Node, pm: Meta) {
    pm.full != "" && p.pathlen == |pm.full| && p.info == D && pm.target == ToDir(p.ino) && p.ino !in pm.anc
  }

  /** The node lies in the directory. */
  ghost predicate Below(n: Node, m: Meta, p: Node, pm: Meta) {
    && ProperName(n.name) && Inside(p, pm)
    && m.full == Join(pm.full, n.name) && n.pathlen == |m.full| && m.anc == pm.anc + {p.ino}
  }

  ghost predicate NodeOk(fs: FileSystem, v: View, id: nat, root: nat)
    requires id in v.h
  {
    var n := v.h[id];
    && LevelOk(n, root)
    && (n.info != Init ==> id in v.meta && Means(fs, n, v.meta[id], v.addr, v.cap))
    && (n.level > 0 ==>
          && n.parent.Some? && n.parent.value in v.h && n.parent.value in v.meta
          && Below(n, v.meta[id], v.h[n.parent.value], v.meta[n.parent.value]))
  }

  ghost predicate NodesOk(fs: FileSystem, v: View)
    requires Covers(v.h, v.order)
  {
    v.order != [] && v.h[Root(v.order)].level == -1
    && forall k {:trigger NodeOk(fs, v, v.order[k], Root(v.order))} | 0 <= k < |v.order| - 1 ::
         NodeOk(fs, v, v.order[k], Root(v.order))
  }

  ghost predicate TaskOk(n: Node, t: Task) {
    n.info != Init && n.info == InfoOf(t.m.target, t.m.anc) && (t.entered ==> n.info == D && n.pathlen == |t.m.full|)
  }

  ghost predicate TaskAt(v: View, k: nat)
    requires Covers(v.h, v.order) && k < |v.later| == |v.order| - 2
  {
    && v.order[k + 1] in v.meta && v.later[k] == Task(v.meta[v.order[k + 1]], v.h[v.order[k]].link == None)
    && TaskOk(v.h[v.order[k + 1]], v.later[k])
  }

  /** Everything after the current node is as it was found; directories already entered have their path. */
  ghost predicate TasksOk(v: View)
    requires Covers(v.h, v.order)
  {
    |v.later| == |v.order| - 2 && forall k | 0 <= k < |v.later| :: TaskAt(v, k)
  }

  /** The current node has been shown for the first or the second time. */
  ghost predicate CurrentOk(v: View)
    requires |v.order| > 0 && v.order[0] in v.h
  {
    var (id, n) := (v.order[0], v.h[v.order[0]]);
    n.info == Init || (
      && id in v.meta && n.pathlen == |v.meta[id].full|
      && (n.info == InfoOf(v.meta[id].target, v.meta[id].anc) || (n.info == DP && v.meta[id].target.ToDir?)))
  }

  ghost predicate TreeOk(fs: FileSystem, v: View) {
    Shape(v.h, v.order, v.rank) && NodesOk(fs, v) && TasksOk(v) && CurrentOk(v)
  }

  lemma TreeTasks(fs: FileSystem, v: View)
    requires TreeOk(fs, v)
    ensures TasksKnown(fs, v.later)
    ensures v.h[v.order[0]].info != Init ==> v.order[0] in v.meta && MetaOk(fs, v.meta[v.order[0]])
  {
    forall k | 0 <= k < |v.later| ensures MetaOk(fs, v.later[k].m) {
      assert TaskAt(v, k) && NodeOk(fs, v, v.order[k + 1], Root(v.order));
    }
    assert NodeOk(fs, v, v.order[0], Root(v.order));
  }

  ghost function Remaining(fs: FileSystem, v: View): seq<Visit>
    requires Static(fs) && TreeOk(fs, v)
  {
    TreeTasks(fs, v);
    var (id, info) := (v.order[0], v.h[v.order[0]].info);
    (if info == Init then [] else Rest(fs, v.meta[id], info)) + Later(fs, v.later)
  }

  ghost predicate SameBut(n: Node, n': Node) { n' == n.(pathAddr := n'.pathAddr) }

  /** A node keeps its meaning if it, its parent and what they stand for are kept. */
  lemma NodeKept(fs: FileSystem, v: View, v': View, id: nat, root: nat)
    requires id in v.h && NodeOk(fs, v, id, root) && id in v'.h && SameBut(v.h[id], v'.h[id]) && v'.cap >= v.cap
    requires v.h[id].info != Init ==> v'.h[id].pathAddr == v'.addr
    requires id in v.meta ==> id in v'.meta && v'.meta[id] == v.meta[id]
    requires var p := v.h[id].parent;
             p.Some? && p.value in v.h && p.value in v.meta ==>
               p.value in v'.h && SameBut(v.h[p.value], v'.h[p.value]) && p.value in v'.meta &&
                 v'.meta[p.value] == v.meta[p.value]
    ensures NodeOk(fs, v', id, root)
  {
  }

  lemma TaskKept(v: View, v': View, k: nat, i: nat)
    requires Covers(v.h, v.order) && k < |v.later| == |v.order| - 2 && Covers(v'.h, v'.order)
    requires i < |v'.later| == |v'.order| - 2
    requires v'.order[i] == v.order[k] && v'.order[i + 1] == v.order[k + 1] && v'.later[i] == v.later[k] && TaskAt(v, k)
    requires SameBut(v.h[v.order[k]], v'.h[v.order[k]]) && SameBut(v.h[v.order[k + 1]], v'.h[v.order[k + 1]])
    requires v.order[k + 1] in v'.meta && v'.meta[v.order[k + 1]] == v.meta[v.order[k + 1]]
    ensures TaskAt(v', i)
  {
  }

  // ---------------------------------------------------------------- moving on

  /** A node is not the current one's child. */
  lemma NotChild(h: map<nat, Node>, order: seq<nat>, rank: map<nat, nat>, id: nat)
    requires Shape(h, order, rank) && id in h
    ensures h[id].parent != Some(order[0])
  {
    assert ParentLater(h, rank, id);
    var k :| 0 <= k < |order| && order[k] == id;
  }

  lemma PopCovers(h: map<nat, Node>, order: seq<nat>, rank: map<nat, nat>)
    requires order != [] && Covers(h, order) && Ranked(order, rank)
    ensures Covers(h - {order[0]}, order[1..]) && Ranked(order[1..], rank)
  {
    var (h', o) := (h - {order[0]}, order[1..]);
    forall k | 0 <= k < |o| ensures o[k] in h' && o[k] in rank && rank[o[k]] == |o| - 1 - k {
      assert o[k] == order[k + 1];
    }
    forall id | id in h' ensures id in o {
      var k :| 0 <= k < |order| && order[k] == id;
      assert o[k - 1] == id;
    }
  }

  lemma PopShape(h: map<nat, Node>, order: seq<nat>, rank: map<nat, nat>)
    requires Shape(h, order, rank) && |order| > 2
    ensures Shape(h - {order[0]}, order[1..], rank)
  {
    var (h', o) := (h - {order[0]}, order[1..]);
    PopCovers(h, order, rank);
    forall k | 0 <= k < |o| - 1 ensures NextAt(h', o, k) {
      assert NextAt(h, order, k + 1);
    }
    forall id | id in h' ensures ParentLater(h', rank, id) {
      assert ParentLater(h, rank, id);
      NotChild(h, order, rank, id);
    }
  }

  ghost function Popped(v: View): View
    requires |v.order| > 0 && |v.later| > 0
  {
    v.(h := v.h - {v.order[0]}, order := v.order[1..], later := v.later[1..])
  }

  lemma PopNodes(fs: FileSystem, v: View)
    requires Shape(v.h, v.order, v.rank) && NodesOk(fs, v) && |v.order| > 2 && |v.later| > 0
    ensures var v' := Popped(v); Covers(v'.h, v'.order) && NodesOk(fs, v')
  {
    var v' := Popped(v);
    PopShape(v.h, v.order, v.rank);
    forall k | 0 <= k < |v'.order| - 1 ensures NodeOk(fs, v', v'.order[k], Root(v'.order)) {
      assert v'.order[k] == v.order[k + 1];
      NotChild(v.h, v.order, v.rank, v.order[k + 1]);
      NodeKept(fs, v, v', v.order[k + 1], Root(v.order));
    }
  }

  lemma PopTasks(v: View)
    requires Shape(v.h, v.order, v.rank) && TasksOk(v) && |v.order| > 2
    ensures var v' := Popped(v); Covers(v'.h, v'.order) && TasksOk(v') && TaskAt(v, 0)
  {
    var v' := Popped(v);
    PopShape(v.h, v.order, v.rank);
    forall k | 0 <= k < |v'.later| ensures TaskAt(v', k) {
      assert TaskAt(v, k + 1);
    }
    assert TaskAt(v, 0);
  }

  /** A change to the current node that moves no pointer. */
  ghost function HeadSet(v: View, n: Node): View
    requires |v.order| > 0
  {
    v.(h := v.h[v.order[0] := n])
  }

  ghost predicate SamePlace(n: Node, n': Node) {
    n' == n.(info := n'.info, pathlen := n'.pathlen) && (n.info == Init <==> n'.info == Init)
  }

  lemma HeadShape(h: map<nat, Node>, order: seq<nat>, rank: map<nat, nat>, n: Node)
    requires Shape(h, order, rank) && SamePlace(h[order[0]], n)
    ensures Shape(h[order[0] := n], order, rank)
  {
    var h' := h[order[0] := n];
    forall k | 0 <= k < |order| - 1 ensures NextAt(h', order, k) {
      assert NextAt(h, order, k);
    }
    forall id | id in h' ensures ParentLater(h', rank, id) {
      assert ParentLater(h, rank, id);
    }
  }

  lemma HeadNodes(fs: FileSystem, v: View, n: Node)
    requires Shape(v.h, v.order, v.rank) && NodesOk(fs, v) && SamePlace(v.h[v.order[0]], n)
    requires n.level == 0 || n.pathlen == v.h[v.order[0]].pathlen
    ensures var v' := HeadSet(v, n); Covers(v'.h, v'.order) && NodesOk(fs, v')
  {
    var v' := HeadSet(v, n);
    assert NodeOk(fs, v, v.order[0], Root(v.order));
    forall k | 0 <= k < |v.order| - 1 ensures NodeOk(fs, v', v.order[k], Root(v.order)) {
      NotChild(v.h, v.order, v.rank, v.order[k]);
      if k > 0 {
        NodeKept(fs, v, v', v.order[k], Root(v.order));
      }
    }
  }

  lemma HeadTasks(v: View, n: Node)
    requires Shape(v.h, v.order, v.rank) && TasksOk(v) && SamePlace(v.h[v.order[0]], n)
    ensures var v' := HeadSet(v, n); Covers(v'.h, v'.order) && TasksOk(v')
  {
    var v' := HeadSet(v, n);
    forall k | 0 <= k < |v.later| ensures TaskAt(v', k) {
      assert TaskAt(v, k);
    }
  }

  // ---------------------------------------------------------------- entering a directory

  ghost function KidMeta(m: Meta, ino: Ino, e: Entry): Meta
    requires m.full != ""
  {
    Meta(Join(m.full, e.name), e.target, m.anc + {ino})
  }

  ghost predicate KidLink(h: map<nat, Node>, kids: seq<nat>, up: nat, i: nat)
    requires i < |kids|
  {
    && kids[i] in h && h[kids[i]].parent == Some(up) && h[kids[i]].info != Init
    && h[kids[i]].link == if i + 1 < |kids| then Some(kids[i + 1]) else None
  }

  /** `kids` are linked in order below the node `up`. */
  ghost predicate KidLinks(h: map<nat, Node>, kids: seq<nat>, up: nat) {
    forall i | 0 <= i < |kids| :: KidLink(h, kids, up, i)
  }

  /** New nodes have been added; in the old ones at most the address of the path buffer has changed. */
  ghost predicate Grown(h: map<nat, Node>, h': map<nat, Node>, kids: seq<nat>) {
    && (forall i | 0 <= i < |kids| :: kids[i] !in h)
    && (forall id | id in h' :: id in h || id in kids)
    && (forall id | id in h :: id in h' && SameBut(h[id], h'[id]))
  }

  ghost predicate RankGrown(rank: map<nat, nat>, rank': map<nat, nat>, kids: seq<nat>, n: nat) {
    && (forall id | id in rank && id !in kids :: id in rank' && rank'[id] == rank[id])
    && (forall i | 0 <= i < |kids| :: kids[i] in rank' && rank'[kids[i]] == n + |kids| - 1 - i)
  }

  lemma PushCovers(
      h: map<nat, Node>, h': map<nat, Node>, kids: seq<nat>, order: seq<nat>, rank: map<nat, nat>, rank': map<nat, nat>)
    requires order != [] && Covers(h, order) && Ranked(order, rank) && Grown(h, h', kids)
    requires KidLinks(h', kids, order[0])
    requires RankGrown(rank, rank', kids, |order|)
    ensures Covers(h', kids + order) && Ranked(kids + order, rank')
  {
    var o := kids + order;
    forall k | 0 <= k < |o| ensures o[k] in h' && o[k] in rank' && rank'[o[k]] == |o| - 1 - k {
      if k < |kids| {
        assert KidLink(h', kids, order[0], k);
      } else {
        assert order[k - |kids|] in h && o[k] !in kids;
      }
    }
  }

  lemma PushNext(h: map<nat, Node>, h': map<nat, Node>, kids: seq<nat>, order: seq<nat>, k: nat)
    requires Covers(h, order) && order != [] && KidLinks(h', kids, order[0]) && Grown(h, h', kids)
    requires Covers(h', kids + order) && k + 1 < |kids| + |order|
    requires k >= |kids| ==> NextAt(h, order, k - |kids|)
    ensures NextAt(h', kids + order, k)
  {
    var o := kids + order;
    if k < |kids| {
      assert KidLink(h', kids, order[0], k);
      if k + 1 < |kids| {
        assert KidLink(h', kids, order[0], k + 1);
      }
    } else {
      assert o[k] == order[k - |kids|] && o[k + 1] == order[k - |kids| + 1];
    }
  }

  lemma PushParents(
      h: map<nat, Node>, h': map<nat, Node>, kids: seq<nat>, order: seq<nat>, rank: map<nat, nat>, rank': map<nat, nat>)
    requires Covers(h, order) && order != [] && Ranked(order, rank) && ParentsLater(h, rank)
    requires KidLinks(h', kids, order[0])
    requires Grown(h, h', kids) && RankGrown(rank, rank', kids, |order|) && Ranked(kids + order, rank')
    ensures ParentsLater(h', rank')
  {
    assert (kids + order)[|kids|] == order[0];
    forall id | id in h' ensures ParentLater(h', rank', id) {
      if id in h {
        assert ParentLater(h, rank, id);
        assert id !in kids && (h[id].parent.Some? ==> h[id].parent.value !in kids);
      } else {
        var i :| 0 <= i < |kids| && kids[i] == id;
        assert KidLink(h', kids, order[0], i);
      }
    }
  }

  lemma PushShape(
      h: map<nat, Node>, h': map<nat, Node>, kids: seq<nat>, order: seq<nat>, rank: map<nat, nat>, rank': map<nat, nat>)
    requires Shape(h, order, rank) && KidLinks(h', kids, order[0]) && Grown(h, h', kids)
    requires RankGrown(rank, rank', kids, |order|)
    ensures Shape(h', kids + order, rank')
  {
    PushCovers(h, h', kids, order, rank, rank');
    PushParents(h, h', kids, order, rank, rank');
    forall k | 0 <= k < |kids| + |order| - 1 ensures NextAt(h', kids + order, k) {
      assert k >= |kids| ==> NextAt(h, order, k - |kids|);
      PushNext(h, h', kids, order, k);
    }
  }

  ghost predicate MetaGrown(
      meta: map<nat, Meta>, meta': map<nat, Meta>, kids: seq<nat>, es: seq<Entry>, m: Meta, ino: Ino)
    requires m.full != "" && |kids| == |es|
  {
    && (forall id | id in meta && id !in kids :: id in meta' && meta'[id] == meta[id])
    && (forall i | 0 <= i < |kids| :: kids[i] in meta' && meta'[kids[i]] == KidMeta(m, ino, es[i]))
  }

  ghost function KidTasks(m: Meta, ino: Ino, es: seq<Entry>): (ts: seq<Task>)
    requires m.full != ""
    ensures |ts| == |es|
  {
    if es == [] then [] else [Task(KidMeta(m, ino, es[0]), false)] + KidTasks(m, ino, es[1..])
  }

  lemma {:induction false} KidTaskAt(m: Meta, ino: Ino, es: seq<Entry>, i: nat)
    requires m.full != "" && i < |es|
    ensures KidTasks(m, ino, es)[i] == Task(KidMeta(m, ino, es[i]), false)
  {
    if i > 0 {
      KidTaskAt(m, ino, es[1..], i - 1);
    }
  }

  /** The node for a directory entry. */
  ghost predicate KidOk(fs: FileSystem, n: Node, e: Entry, m: Meta, ino: Ino, cap: nat)
    requires m.full != ""
  {
    && n.name == e.name && ProperName(n.name) && n.level == Depth(m.anc + {ino}) > 0
    && n.pathlen == |Join(m.full, e.name)| < cap
    && n.info == InfoOf(e.target, m.anc + {ino}) && (e.target.ToDir? ==> n.ino == e.target.ino)
    && MetaOk(fs, KidMeta(m, ino, e))
  }

  /** New nodes come first, and then the directory they are in. */
  ghost predicate EnterMaps(v: View, v': View, kids: seq<nat>, es: seq<Entry>, m: Meta, ino: Ino) {
    && m.full != "" && |kids| == |es| > 0
    && v'.order == kids + v.order && Grown(v.h, v'.h, kids) && MetaGrown(v.meta, v'.meta, kids, es, m, ino)
    && v'.later == KidTasks(m, ino, es)[1..] + [Task(m, true)] + v.later
  }

  /** The state after the current directory has been read. */
  ghost predicate Entering(fs: FileSystem, v: View, v': View, kids: seq<nat>, es: seq<Entry>) {
    && |v.order| >= 2 && v.order[0] in v.h && v.order[0] in v.meta && kids != [] && |kids| == |es|
    && var (cur, m) := (v.order[0], v.meta[v.order[0]]);
       && Inside(v.h[cur], m) && v'.cap >= v.cap
       && EnterMaps(v, v', kids, es, m, v.h[cur].ino)
       && KidLinks(v'.h, kids, cur) && RankGrown(v.rank, v'.rank, kids, |v.order|)
       && (forall i | 0 <= i < |kids| :: kids[i] in v'.h && KidOk(fs, v'.h[kids[i]], es[i], m, v.h[cur].ino, v'.cap))
       && (forall id | id in v'.h && id != Root(v.order) :: v'.h[id].pathAddr == v'.addr)
  }

  lemma EnterKid(fs: FileSystem, v: View, v': View, kids: seq<nat>, es: seq<Entry>, k: nat)
    requires Entering(fs, v, v', kids, es) && Ranked(v.order, v.rank) && k < |kids| && Root(v.order) in v.h
    ensures kids[k] in v'.h && NodeOk(fs, v', kids[k], Root(v.order))
  {
    var (cur, m) := (v.order[0], v.meta[v.order[0]]);
    assert KidLink(v'.h, kids, cur, k) && KidOk(fs, v'.h[kids[k]], es[k], m, v.h[cur].ino, v'.cap);
    assert cur != Root(v.order) && cur !in kids && kids[k] !in v.h;
  }

  lemma EnterOld(fs: FileSystem, v: View, v': View, kids: seq<nat>, es: seq<Entry>, id: nat)
    requires Entering(fs, v, v', kids, es) && ParentsLater(v.h, v.rank)
    requires id in v.h && id != Root(v.order) && NodeOk(fs, v, id, Root(v.order))
    ensures id in v'.h && NodeOk(fs, v', id, Root(v.order))
  {
    var p := v.h[id].parent;
    assert ParentLater(v.h, v.rank, id);
    assert id !in kids;
    assert p.Some? ==> p.value in v.h && p.value !in kids;
    NodeKept(fs, v, v', id, Root(v.order));
  }

  lemma OldNode(fs: FileSystem, v: View, i: nat)
    requires Shape(v.h, v.order, v.rank) && NodesOk(fs, v) && i < |v.order| - 1
    ensures v.order[i] in v.h && v.order[i] != Root(v.order) && NodeOk(fs, v, v.order[i], Root(v.order))
  {
    assert v.rank[v.order[i]] > v.rank[Root(v.order)];
  }

  lemma EnterNode(fs: FileSystem, v: View, v': View, kids: seq<nat>, es: seq<Entry>, k: nat)
    requires Entering(fs, v, v', kids, es) && Shape(v.h, v.order, v.rank) && NodesOk(fs, v) && k < |v'.order| - 1
    ensures v'.order[k] in v'.h && NodeOk(fs, v', v'.order[k], Root(v.order))
  {
    OrderIndex(kids, v.order, k);
    if k < |kids| {
      EnterKid(fs, v, v', kids, es, k);
    } else {
      OldNode(fs, v, k - |kids|);
      EnterOld(fs, v, v', kids, es, v.order[k - |kids|]);
    }
  }

  lemma SameRoot(kids: seq<nat>, order: seq<nat>)
    requires order != []
    ensures Root(kids + order) == Root(order)
  {
  }

  lemma EnterNodes(fs: FileSystem, v: View, v': View, kids: seq<nat>, es: seq<Entry>)
    requires Entering(fs, v, v', kids, es) && Shape(v.h, v.order, v.rank) && NodesOk(fs, v) && Covers(v'.h, v'.order)
    ensures NodesOk(fs, v')
  {
    var root := Root(v.order);
    SameRoot(kids, v.order);
    assert root in v.h && SameBut(v.h[root], v'.h[root]);
    forall k | 0 <= k < |v'.order| - 1 ensures NodeOk(fs, v', v'.order[k], root) {
      EnterNode(fs, v, v', kids, es, k);
    }
  }

  lemma LaterIndex(ts: seq<Task>, t: Task, later: seq<Task>, k: nat)
    requires ts != [] && k < |ts| + |later|
    ensures (ts[1..] + [t] + later)[k] ==
            if k + 1 < |ts| then ts[k + 1] else if k + 1 == |ts| then t else later[k - |ts|]
  {
  }

  lemma OrderIndex(kids: seq<nat>, order: seq<nat>, k: nat)
    requires k < |kids| + |order|
    ensures (kids + order)[k] == if k < |kids| then kids[k] else order[k - |kids|]
  {
  }

  lemma MakeTask(v: View, k: nat, a: nat, b: nat)
    requires Covers(v.h, v.order) && k < |v.later| == |v.order| - 2 && v.order[k] == a && v.order[k + 1] == b
    requires b in v.meta
    requires v.later[k] == Task(v.meta[b], v.h[a].link == None) && TaskOk(v.h[b], v.later[k])
    ensures TaskAt(v, k)
  {
  }

  lemma KidParts(fs: FileSystem, v: View, v': View, kids: seq<nat>, es: seq<Entry>, i: nat)
    requires Entering(fs, v, v', kids, es) && i < |kids|
    ensures KidLink(v'.h, kids, v.order[0], i)
    ensures kids[i] in v'.h && KidOk(fs, v'.h[kids[i]], es[i], v.meta[v.order[0]], v.h[v.order[0]].ino, v'.cap)
    ensures kids[i] in v'.meta && v'.meta[kids[i]] == KidMeta(v.meta[v.order[0]], v.h[v.order[0]].ino, es[i])
  {
  }

  ghost predicate KidShown(n: Node, e: Entry, m: Meta, ino: Ino, up: nat, cap: nat)
    requires m.full != ""
  {
    && n.parent == Some(up) && n.name == e.name && |Join(m.full, n.name)| < cap
    && n.info != Init && n.info != DP && n.info == InfoOf(e.target, m.anc + {ino})
  }

  lemma ShownAs(
      fs: FileSystem, h: map<nat, Node>, kids: seq<nat>, up: nat, i: nat, e: Entry, m: Meta, ino: Ino, cap: nat)
    requires i < |kids| && KidLink(h, kids, up, i) && m.full != "" && KidOk(fs, h[kids[i]], e, m, ino, cap)
    ensures KidShown(h[kids[i]], e, m, ino, up, cap) && (h[kids[i]].link == None <==> i + 1 == |kids|)
  {
  }

  lemma KidFacts(fs: FileSystem, v: View, v': View, kids: seq<nat>, es: seq<Entry>, i: nat)
    requires Entering(fs, v, v', kids, es) && i < |kids|
    ensures kids[i] in v'.h && kids[i] in v'.meta
    ensures v'.meta[kids[i]] == KidMeta(v.meta[v.order[0]], v.h[v.order[0]].ino, es[i])
    ensures v'.h[kids[i]].link == None <==> i + 1 == |kids|
    ensures KidShown(v'.h[kids[i]], es[i], v.meta[v.order[0]], v.h[v.order[0]].ino, v.order[0], v'.cap)
  {
    KidParts(fs, v, v', kids, es, i);
    ShownAs(fs, v'.h, kids, v.order[0], i, es[i], v.meta[v.order[0]], v.h[v.order[0]].ino, v'.cap);
  }

  lemma EnterTaskKid(fs: FileSystem, v: View, v': View, kids: seq<nat>, es: seq<Entry>, k: nat)
    requires Entering(fs, v, v', kids, es) && Covers(v'.h, v'.order) && |v'.later| == |v'.order| - 2 && k + 1 < |kids|
    ensures TaskAt(v', k)
  {
    var (m, ino) := (v.meta[v.order[0]], v.h[v.order[0]].ino);
    KidTaskAt(m, ino, es, k + 1);
    LaterIndex(KidTasks(m, ino, es), Task(m, true), v.later, k);
    OrderIndex(kids, v.order, k);
    OrderIndex(kids, v.order, k + 1);
    KidFacts(fs, v, v', kids, es, k);
    KidFacts(fs, v, v', kids, es, k + 1);
    MakeTask(v', k, kids[k], kids[k + 1]);
  }

  lemma EnterTaskCur(fs: FileSystem, v: View, v': View, kids: seq<nat>, es: seq<Entry>)
    requires Entering(fs, v, v', kids, es) && Covers(v'.h, v'.order) && |v'.later| == |v'.order| - 2
    ensures TaskAt(v', |kids| - 1)
  {
    var (cur, m, k) := (v.order[0], v.meta[v.order[0]], |kids| - 1);
    LaterIndex(KidTasks(m, v.h[cur].ino, es), Task(m, true), v.later, k);
    OrderIndex(kids, v.order, k);
    OrderIndex(kids, v.order, k + 1);
    KidFacts(fs, v, v', kids, es, k);
    assert cur in v.h && cur !in kids;
    MakeTask(v', k, kids[k], cur);
  }

  lemma EnterTaskOld(v: View, v': View, kids: seq<nat>, es: seq<Entry>, m: Meta, ino: Ino, k: nat)
    requires EnterMaps(v, v', kids, es, m, ino)
    requires Covers(v'.h, v'.order) && |v'.later| == |v'.order| - 2
    requires Covers(v.h, v.order) && k < |v.later| == |v.order| - 2 && TaskAt(v, k)
    ensures TaskAt(v', |kids| + k)
  {
    var i := |kids| + k;
    LaterIndex(KidTasks(m, ino, es), Task(m, true), v.later, i);
    OrderIndex(kids, v.order, i);
    OrderIndex(kids, v.order, i + 1);
    assert v.order[k] in v.h && v.order[k + 1] in v.h && v.order[k + 1] !in kids;
    TaskKept(v, v', k, i);
  }

  lemma EnterTaskRest(v: View, v': View, kids: seq<nat>, es: seq<Entry>, m: Meta, ino: Ino, k: nat)
    requires EnterMaps(v, v', kids, es, m, ino) && Covers(v'.h, v'.order) && Covers(v.h, v.order) && TasksOk(v)
    requires |kids| <= k < |v'.later| == |v'.order| - 2 && |v.later| == |v.order| - 2
    ensures TaskAt(v', k)
  {
    var i := k - |kids|;
    assert i < |v.later| && TaskAt(v, i);
    EnterTaskOld(v, v', kids, es, m, ino, i);
  }

  lemma EnterTask(fs: FileSystem, v: View, v': View, kids: seq<nat>, es: seq<Entry>, k: nat)
    requires Entering(fs, v, v', kids, es) && Covers(v'.h, v'.order) && Covers(v.h, v.order) && TasksOk(v)
    requires k < |v'.later| == |v'.order| - 2
    ensures TaskAt(v', k)
  {
    if k + 1 < |kids| {
      EnterTaskKid(fs, v, v', kids, es, k);
    } else if k + 1 == |kids| {
      EnterTaskCur(fs, v, v', kids, es);
    } else {
      EnterTaskRest(v, v', kids, es, v.meta[v.order[0]], v.h[v.order[0]].ino, k);
    }
  }

  lemma EnterTasks(fs: FileSystem, v: View, v': View, kids: seq<nat>, es: seq<Entry>)
    requires Entering(fs, v, v', kids, es) && Covers(v'.h, v'.order) && Covers(v.h, v.order) && TasksOk(v)
    ensures TasksOk(v')
  {
    forall k | 0 <= k < |v'.later| ensures TaskAt(v', k) {
      EnterTask(fs, v, v', kids, es, k);
    }
  }

  lemma EnterTree(fs: FileSystem, v: View, v': View, kids: seq<nat>, es: seq<Entry>)
    requires Entering(fs, v, v', kids, es) && TreeOk(fs, v)
    ensures TreeOk(fs, v')
  {
    PushShape(v.h, v'.h, kids, v.order, v.rank, v'.rank);
    EnterNodes(fs, v, v', kids, es);
    EnterTasks(fs, v, v', kids, es);
    var (cur, m) := (v.order[0], v.meta[v.order[0]]);
    assert KidLink(v'.h, kids, cur, 0) && KidOk(fs, v'.h[kids[0]], es[0], m, v.h[cur].ino, v'.cap);
    assert v'.order[0] == kids[0];
  }

  // ---------------------------------------------------------------- what entering leaves to do

  lemma LaterSplit(fs: FileSystem, a: seq<Task>, b: seq<Task>)
    requires Static(fs) && a != [] && TasksKnown(fs, a) && TasksKnown(fs, a[1..] + b)
    ensures TasksKnown(fs, a + b) && Later(fs, a + b) == Pending(fs, a[0]) + Later(fs, a[1..] + b)
  {
    assert (a + b)[1..] == a[1..] + b;
    assert a + b == [a[0]] + (a[1..] + b);
  }

  lemma TasksJoin(fs: FileSystem, a: seq<Task>, b: seq<Task>)
    requires TasksKnown(fs, a) && TasksKnown(fs, b)
    ensures TasksKnown(fs, a + b) && (a != [] ==> TasksKnown(fs, a[1..]))
  {
  }

  lemma Assoc<T>(a: seq<T>, b: seq<T>, c: seq<T>)
    ensures a + (b + c) == a + b + c
  {
  }

  lemma LaterFirst(fs: FileSystem, a: seq<Task>) returns (first: seq<Visit>, rest: seq<Visit>)
    requires Static(fs) && a != [] && TasksKnown(fs, a) && TasksKnown(fs, a[1..])
    ensures first == Pending(fs, a[0]) && rest == Later(fs, a[1..]) && Later(fs, a) == first + rest
  {
    first, rest := Pending(fs, a[0]), Later(fs, a[1..]);
  }

  lemma {:induction false} LaterAppend(fs: FileSystem, a: seq<Task>, b: seq<Task>)
    requires Static(fs) && TasksKnown(fs, a) && TasksKnown(fs, b)
    ensures TasksKnown(fs, a + b) && Later(fs, a + b) == Later(fs, a) + Later(fs, b)
  {
    if a == [] {
      assert a + b == b;
    } else {
      TasksJoin(fs, a, b);
      LaterAppend(fs, a[1..], b);
      LaterSplit(fs, a, b);
      var first, rest := LaterFirst(fs, a);
      Assoc(first, rest, Later(fs, b));
    }
  }

  lemma {:induction false} KidsWalk(fs: FileSystem, m: Meta, ino: Ino, es: seq<Entry>)
    requires Static(fs) && m.full != "" && KnownEntries(fs.dirs, es) && TasksKnown(fs, KidTasks(m, ino, es))
    ensures Later(fs, KidTasks(m, ino, es)) == WalkEntries(fs.dirs, m.full, es, m.anc + {ino})
  {
    if es != [] {
      var ts := KidTasks(m, ino, es);
      assert ts[1..] == KidTasks(m, ino, es[1..]);
      assert forall k | 0 <= k < |ts| - 1 :: ts[1..][k] == ts[k + 1];
      KidsWalk(fs, m, ino, es[1..]);
    }
  }

  lemma KnownVisible(fs: FileSystem, ino: Ino)
    requires Static(fs) && ino in fs.dirs
    ensures KnownEntries(fs.dirs, Visible(fs.dirs[ino]))
  {
    VisibleKnown(fs.dirs, fs.dirs[ino]);
  }

  lemma InsideSplits(fs: FileSystem, m: Meta, ino: Ino)
    requires Static(fs) && MetaOk(fs, m) && m.target == ToDir(ino) && ino !in m.anc
    requires var ts := KidTasks(m, ino, Visible(fs.dirs[ino]));
             ts != [] && TasksKnown(fs, ts) && TasksKnown(fs, ts[1..])
    ensures var ts := KidTasks(m, ino, Visible(fs.dirs[ino]));
            var info := InfoOf(ts[0].m.target, ts[0].m.anc);
            Rest(fs, m, D) ==
              [Visit(ts[0].m.full, info, Depth(ts[0].m.anc))] + Rest(fs, ts[0].m, info) + Later(fs, ts[1..]) +
                [Visit(m.full, DP, Depth(m.anc))]
  {
    var es := Visible(fs.dirs[ino]);
    var ts := KidTasks(m, ino, es);
    KnownVisible(fs, ino);
    KidsWalk(fs, m, ino, es);
    KidTaskAt(m, ino, es, 0);
    WalkStarts(fs, ts[0].m);
  }

  lemma LaterPushed(fs: FileSystem, ts: seq<Task>, m: Meta, later: seq<Task>)
    requires Static(fs) && MetaOk(fs, m) && TasksKnown(fs, ts) && TasksKnown(fs, later)
    ensures TasksKnown(fs, ts + [Task(m, true)] + later)
    ensures Later(fs, ts + [Task(m, true)] + later) ==
            Later(fs, ts) + [Visit(m.full, DP, Depth(m.anc))] + Later(fs, later)
  {
    var one := LaterOne(fs, m);
    LaterAppend(fs, ts, one);
    LaterAppend(fs, ts + one, later);
  }

  lemma LaterOne(fs: FileSystem, m: Meta) returns (one: seq<Task>)
    requires Static(fs) && MetaOk(fs, m)
    ensures one == [Task(m, true)] && TasksKnown(fs, one) && Later(fs, one) == [Visit(m.full, DP, Depth(m.anc))]
  {
    one := [Task(m, true)];
    assert one[1..] == [];
    assert Later(fs, one) == Pending(fs, one[0]) + [];
  }

  lemma Regroup<T>(a: seq<T>, b: seq<T>, c: seq<T>, d: seq<T>, e: seq<T>)
    ensures a + b + c + d + e == a + (b + (c + d + e))
  {
  }

  /** Entering a directory shows its first entry and leaves the others, and the directory itself, for later. */
  lemma EnterRest(fs: FileSystem, m: Meta, ino: Ino, later: seq<Task>)
    requires Static(fs) && MetaOk(fs, m) && m.target == ToDir(ino) && ino !in m.anc && TasksKnown(fs, later)
    requires var ts := KidTasks(m, ino, Visible(fs.dirs[ino])); ts != [] && TasksKnown(fs, ts)
    ensures var ts := KidTasks(m, ino, Visible(fs.dirs[ino]));
            var info := InfoOf(ts[0].m.target, ts[0].m.anc);
            && TasksKnown(fs, ts[1..] + [Task(m, true)] + later)
            && Rest(fs, m, D) + Later(fs, later)
               == [Visit(ts[0].m.full, info, Depth(ts[0].m.anc))] +
                    (Rest(fs, ts[0].m, info) + Later(fs, ts[1..] + [Task(m, true)] + later))
  {
    var ts := KidTasks(m, ino, Visible(fs.dirs[ino]));
    var info := InfoOf(ts[0].m.target, ts[0].m.anc);
    TasksJoin(fs, ts, []);
    InsideSplits(fs, m, ino);
    LaterPushed(fs, ts[1..], m, later);
    Regroup([Visit(ts[0].m.full, info, Depth(ts[0].m.anc))], Rest(fs, ts[0].m, info), Later(fs, ts[1..]),
      [Visit(m.full, DP, Depth(m.anc))], Later(fs, later));
  }

  lemma PopRest(fs: FileSystem, later: seq<Task>)
    requires Static(fs) && TasksKnown(fs, later) && later != []
    ensures TasksKnown(fs, later[1..])
    ensures var (t, rest) := (later[0], Later(fs, later[1..]));
            Later(fs, later) ==
            if t.entered then [Visit(t.m.full, DP, Depth(t.m.anc))] + rest
            else
              [Visit(t.m.full, InfoOf(t.m.target, t.m.anc), Depth(t.m.anc))] +
                (Rest(fs, t.m, InfoOf(t.m.target, t.m.anc)) + rest)
  {
    TasksJoin(fs, later, []);
    WalkStarts(fs, later[0].m);
  }

  lemma EmptyRest(fs: FileSystem, m: Meta, ino: Ino)
    requires Static(fs) && MetaOk(fs, m) && m.target == ToDir(ino) && ino !in m.anc && Visible(fs.dirs[ino]) == []
    ensures Rest(fs, m, D) == [Visit(m.full[..Append(m.full)], DP, Depth(m.anc))]
  {
    KnownVisible(fs, ino);
    assert WalkEntries(fs.dirs, m.full, [], m.anc + {ino}) == [];
  }

  // ---------------------------------------------------------------- one visit at a time

  /** `v'` is what `v` comes to after the visit. */
  ghost predicate Visited(fs: FileSystem, v: View, visit: Visit, v': View)
    requires Static(fs)
  {
    TreeOk(fs, v) && TreeOk(fs, v') && Remaining(fs, v) == [visit] + Remaining(fs, v')
  }

  lemma HeadOk(fs: FileSystem, v: View, n: Node)
    requires Shape(v.h, v.order, v.rank) && NodesOk(fs, v) && TasksOk(v) && SamePlace(v.h[v.order[0]], n)
    requires n.level == 0 || n.pathlen == v.h[v.order[0]].pathlen
    requires CurrentOk(HeadSet(v, n))
    ensures TreeOk(fs, HeadSet(v, n))
  {
    HeadShape(v.h, v.order, v.rank, n);
    HeadNodes(fs, v, n);
    HeadTasks(v, n);
  }

  lemma CurrentFacts(fs: FileSystem, v: View)
    requires TreeOk(fs, v) && v.h[v.order[0]].info == D
    ensures var c := v.order[0];
            c in v.meta && MetaOk(fs, v.meta[c]) && Inside(v.h[c], v.meta[c]) && |v.meta[c].full| < v.cap &&
              v.h[c].level >= 0
  {
    assert NodeOk(fs, v, v.order[0], Root(v.order));
  }

  lemma RestFirst(fs: FileSystem, v: View)
    requires Static(fs) && TreeOk(fs, v)
    ensures TasksKnown(fs, v.later)
    ensures v.h[v.order[0]].info != D ==> Remaining(fs, v) == Later(fs, v.later)
    ensures v.h[v.order[0]].info == D ==>
      var m := v.meta[v.order[0]];
      MetaOk(fs, m) && InfoOf(m.target, m.anc) == D && Remaining(fs, v) == Rest(fs, m, D) + Later(fs, v.later)
  {
    TreeTasks(fs, v);
  }

  lemma MakeVisited(fs: FileSystem, v: View, visit: Visit, v': View)
    requires Static(fs) && TreeOk(fs, v) && TreeOk(fs, v') && Remaining(fs, v) == [visit] + Remaining(fs, v')
    ensures Visited(fs, v, visit, v')
  {
  }

  /** A node's level is its depth. */
  lemma NodeAt(fs: FileSystem, v: View, k: nat)
    requires TreeOk(fs, v) && k < |v.order| - 1 && v.h[v.order[k]].info != Init
    ensures v.order[k] in v.meta && v.h[v.order[k]].level == Depth(v.meta[v.order[k]].anc)
  {
    assert NodeOk(fs, v, v.order[k], Root(v.order));
  }

  /** A directory without entries is visited again at once. */
  lemma EmptyVisit(fs: FileSystem, v: View)
    requires Static(fs) && TreeOk(fs, v) && v.h[v.order[0]].info == D && VisibleIn(fs, v.h[v.order[0]].ino) == []
    ensures v.order[0] in v.meta && v.meta[v.order[0]].full != ""
    ensures var (n, m) := (v.h[v.order[0]], v.meta[v.order[0]]);
            Visited(fs, v, Visit(m.full[..Append(m.full)], DP, n.level), HeadSet(v, n.(info := DP)))
  {
    var (n, m) := (v.h[v.order[0]], v.meta[v.order[0]]);
    var v' := HeadSet(v, n.(info := DP));
    CurrentFacts(fs, v);
    EmptyOk(fs, v);
    RestFirst(fs, v);
    RestFirst(fs, v');
    EmptyRest(fs, m, n.ino);
    NodeAt(fs, v, 0);
    MakeVisited(fs, v, Visit(m.full[..Append(m.full)], DP, n.level), v');
  }

  lemma EmptyOk(fs: FileSystem, v: View)
    requires TreeOk(fs, v) && v.h[v.order[0]].info == D
    ensures TreeOk(fs, HeadSet(v, v.h[v.order[0]].(info := DP)))
  {
    CurrentFacts(fs, v);
    HeadOk(fs, v, v.h[v.order[0]].(info := DP));
  }

  /** A directory with entries has the first one visited next. */
  lemma EnterVisit(fs: FileSystem, v: View, v': View, kids: seq<nat>, es: seq<Entry>)
    requires Static(fs) && TreeOk(fs, v) && v.h[v.order[0]].info == D && es == VisibleIn(fs, v.h[v.order[0]].ino)
    requires Entering(fs, v, v', kids, es)
    ensures TreeOk(fs, v') && kids[0] in v'.meta && kids[0] in v'.h
    ensures Visited(fs, v, Visit(v'.meta[kids[0]].full, v'.h[kids[0]].info, v'.h[kids[0]].level), v')
  {
    var (c, m) := (v.order[0], v.meta[v.order[0]]);
    var ino := v.h[c].ino;
    CurrentFacts(fs, v);
    EnterTree(fs, v, v', kids, es);
    TreeTasks(fs, v);
    TreeTasks(fs, v');
    KidFacts(fs, v, v', kids, es, 0);
    KidTaskAt(m, ino, es, 0);
    OrderIndex(kids, v.order, 0);
    KidTasksKnown(fs, v, v', kids, es);
    EnterRest(fs, m, ino, v.later);
  }

  lemma KidTasksKnown(fs: FileSystem, v: View, v': View, kids: seq<nat>, es: seq<Entry>)
    requires Entering(fs, v, v', kids, es)
    ensures TasksKnown(fs, KidTasks(v.meta[v.order[0]], v.h[v.order[0]].ino, es))
  {
    var (c, m) := (v.order[0], v.meta[v.order[0]]);
    forall i | 0 <= i < |es| ensures MetaOk(fs, KidTasks(m, v.h[c].ino, es)[i].m) {
      KidTaskAt(m, v.h[c].ino, es, i);
      assert KidOk(fs, v'.h[kids[i]], es[i], m, v.h[c].ino, v'.cap);
    }
  }

  lemma PopOk(fs: FileSystem, v: View)
    requires TreeOk(fs, v) && |v.order| > 2
    ensures var v' := Popped(v);
            Shape(v'.h, v'.order, v'.rank) && NodesOk(fs, v') && TasksOk(v') && TaskAt(v, 0) &&
              NodeOk(fs, v', v'.order[0], Root(v.order))
    ensures v.order[1] in v.h && v.h[v.order[1]].info != Init
  {
    PopShape(v.h, v.order, v.rank);
    PopNodes(fs, v);
    PopTasks(v);
    assert NodeOk(fs, Popped(v), Popped(v).order[0], Root(v.order));
  }

  /** What fts_read makes of the next node: a directory again, or a file for the first time. */
  ghost function Stepped(n: Node, t: Task): Node {
    if t.entered then n.(info := DP) else n.(pathlen := |t.m.full|)
  }

  lemma SteppedOk(fs: FileSystem, v: View)
    requires TreeOk(fs, v) && |v.order| > 2
    ensures v.order[1] in v.h && TreeOk(fs, HeadSet(Popped(v), Stepped(v.h[v.order[1]], v.later[0])))
  {
    PopOk(fs, v);
    var (v1, n) := (Popped(v), v.h[v.order[1]]);
    assert v1.order[0] == v.order[1] && v1.h[v1.order[0]] == n;
    HeadOk(fs, v1, Stepped(n, v.later[0]));
  }

  lemma PoppedRest(fs: FileSystem, v: View)
    requires Static(fs) && TreeOk(fs, v) && |v.order| > 2 && v.order[1] in v.h && TasksKnown(fs, v.later)
    requires TreeOk(fs, HeadSet(Popped(v), Stepped(v.h[v.order[1]], v.later[0])))
    ensures var (n, t) := (Stepped(v.h[v.order[1]], v.later[0]), v.later[0]);
            && TasksKnown(fs, v.later[1..]) && n.info == (if t.entered then DP else InfoOf(t.m.target, t.m.anc))
            && Remaining(fs, HeadSet(Popped(v), n)) == Rest(fs, t.m, n.info) + Later(fs, v.later[1..])
  {
    var v' := HeadSet(Popped(v), Stepped(v.h[v.order[1]], v.later[0]));
    TreeTasks(fs, v');
    assert TaskAt(v, 0) && v'.order[0] == v.order[1];
  }

  lemma NextComes(fs: FileSystem, v: View, t: Task, info: Info, rest: seq<Visit>)
    requires Static(fs) && v.later != [] && TasksKnown(fs, v.later) && TasksKnown(fs, v.later[1..]) && t == v.later[0]
    requires info == (if t.entered then DP else InfoOf(t.m.target, t.m.anc)) && (info == D ==> !t.entered)
    requires rest == Rest(fs, t.m, info) + Later(fs, v.later[1..])
    ensures Later(fs, v.later) == [Visit(t.m.full, info, Depth(t.m.anc))] + rest
  {
    PopRest(fs, v.later);
    if t.entered {
      assert rest == Later(fs, v.later[1..]);
    }
  }

  lemma NextLevel(fs: FileSystem, v: View)
    requires TreeOk(fs, v) && |v.order| > 2
    ensures Stepped(v.h[v.order[1]], v.later[0]).level == Depth(v.later[0].m.anc)
  {
    assert TaskAt(v, 0);
    NodeAt(fs, v, 1);
  }

  /** After any other node the one that the pointers lead to is visited. */
  lemma PopVisit(fs: FileSystem, v: View)
    requires Static(fs) && TreeOk(fs, v) && v.h[v.order[0]].info != D && |v.order| > 2
    ensures v.order[1] in v.h
    ensures var n := Stepped(v.h[v.order[1]], v.later[0]);
            Visited(fs, v, Visit(v.later[0].m.full, n.info, n.level), HeadSet(Popped(v), n))
  {
    SteppedOk(fs, v);
    RestFirst(fs, v);
    PoppedRest(fs, v);
    var n := Stepped(v.h[v.order[1]], v.later[0]);
    NextLevel(fs, v);
    NextComes(fs, v, v.later[0], n.info, Remaining(fs, HeadSet(Popped(v), n)));
  }

  lemma NothingLeft(fs: FileSystem, v: View)
    requires Static(fs) && TreeOk(fs, v) && v.h[v.order[0]].info != D && |v.order| == 2
    ensures Remaining(fs, v) == []
  {
    TreeTasks(fs, v);
  }

  // ---------------------------------------------------------------- depth

  /** The directories above a node, nearest first. */
  ghost function Above(fs: FileSystem, v: View, id: nat): seq<Ino>
    requires TreeOk(fs, v) && id in v.h
    decreases if id in v.rank then v.rank[id] else 0
  {
    assert ParentLater(v.h, v.rank, id);
    var p := v.h[id].parent;
    if v.h[id].level > 0 && p.Some? then [v.h[p.value].ino] + Above(fs, v, p.value) else []
  }

  lemma NodeOf(fs: FileSystem, v: View, id: nat)
    requires TreeOk(fs, v) && id in v.h && v.h[id].level >= 0
    ensures NodeOk(fs, v, id, Root(v.order))
  {
    var k :| 0 <= k < |v.order| && v.order[k] == id;
    assert v.h[Root(v.order)].level == -1;
    assert NodeOk(fs, v, v.order[k], Root(v.order));
  }

  /**
   * Along every way up the directories are pairwise different, so a node is never
   * below more directories than there are, however the links run; its level is their number.
   */
  lemma {:induction false} DepthIsBounded(fs: FileSystem, v: View, id: nat)
    requires TreeOk(fs, v) && id in v.h && v.h[id].level >= 0 && v.h[id].info != Init
    ensures id in v.meta && |Above(fs, v, id)| == |v.meta[id].anc| <= |fs.dirs.Keys|
    ensures v.h[id].level == if |Above(fs, v, id)| < 0x7fff then |Above(fs, v, id)| else 0x7fff
    ensures forall i | i in Above(fs, v, id) :: i in v.meta[id].anc
    ensures forall i, j | 0 <= i < j < |Above(fs, v, id)| :: Above(fs, v, id)[i] != Above(fs, v, id)[j]
    decreases if id in v.rank then v.rank[id] else 0
  {
    NodeOf(fs, v, id);
    Smaller(v.meta[id].anc, fs.dirs.Keys);
    if v.h[id].level > 0 {
      assert ParentLater(v.h, v.rank, id);
      var up := v.h[id].parent.value;
      ParentLevel(fs, v, id);
      DepthIsBounded(fs, v, up);
      assert v.meta[id].anc == v.meta[up].anc + {v.h[up].ino};
    }
  }

  lemma ParentLevel(fs: FileSystem, v: View, id: nat)
    requires TreeOk(fs, v) && id in v.h && v.h[id].level > 0
    ensures v.h[id].parent.Some? && v.h[id].parent.value in v.h
    ensures v.h[v.h[id].parent.value].level >= 0 && v.h[v.h[id].parent.value].info == D
  {
    NodeOf(fs, v, id);
    var up := v.h[id].parent.value;
    var k :| 0 <= k < |v.order| && v.order[k] == up;
    assert v.order[k] != Root(v.order);
    assert NodeOk(fs, v, v.order[k], Root(v.order));
  }

  lemma {:induction false} Smaller<T>(a: set<T>, b: set<T>)
    requires a <= b
    ensures |a| <= |b|
  {
    if a != {} {
      var x :| x in a;
      Smaller(a - {x}, b - {x});
    }
  }
}
