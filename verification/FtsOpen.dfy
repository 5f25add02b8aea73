/** The nodes that fts_open makes, and the whole traversal that they stand for. */
module FtsOpen {
  import opened Common
  import opened FtsSpec
  import opened FtsState
  import opened FtsBuild

  /** An argument is a C string. */
  ghost predicate ArgOk(fs: FileSystem, arg: string) { '\0' !in arg && Known(fs.dirs, fs.resolve(arg)) }

  function RootNode(fs: FileSystem, arg: string, up: nat, link: Option<nat>, addr: nat): Node {
    var t := fs.resolve(arg);
    Node(arg, Some(up), link, 0, InfoOf(t, {}), if t.ToDir? then t.ino else Ino(0, 0), 0, addr)
  }

  ghost predicate RootAt(
      fs: FileSystem, h: map<nat, Node>, up: nat, ids: seq<nat>, args: seq<string>, addr: nat, i: nat)
    requires i < |ids| <= |args|
  {
    ids[i] in h && h[ids[i]] == RootNode(fs, args[i], up, if i + 1 < |ids| then Some(ids[i + 1]) else None, addr)
  }

  /** The parent of the roots, and roots for the first arguments, linked in order. */
  ghost predicate Roots(fs: FileSystem, h: map<nat, Node>, up: nat, ids: seq<nat>, args: seq<string>, addr: nat) {
    && |ids| <= |args| && up in h && up !in ids && NoRepeats(ids) && (forall id | id in h :: id == up || id in ids)
    && h[up].level == -1 && h[up].parent == None && h[up].link == None && h[up].info != Init
    && forall i {:trigger RootAt(fs, h, up, ids, args, addr, i)} | 0 <= i < |ids| ::
      RootAt(fs, h, up, ids, args, addr, i)
  }

  lemma AppendRoot(fs: FileSystem, h: map<nat, Node>, up: nat, ids: seq<nat>, args: seq<string>, addr: nat, p: nat)
    requires Roots(fs, h, up, ids, args, addr) && |ids| < |args| && p !in h
    ensures ids != [] ==> ids[|ids| - 1] in h
    ensures Roots(fs, Appended(h, ids, p, RootNode(fs, args[|ids|], up, None, addr)), up, ids + [p], args, addr)
  {
    if ids != [] {
      assert RootAt(fs, h, up, ids, args, addr, |ids| - 1);
    }
    var (h', ids') := (Appended(h, ids, p, RootNode(fs, args[|ids|], up, None, addr)), ids + [p]);
    forall i | 0 <= i < |ids'| ensures RootAt(fs, h', up, ids', args, addr, i) {
      if i < |ids| {
        assert RootAt(fs, h, up, ids, args, addr, i);
      }
    }
    forall i | 0 <= i < |ids| ensures ids[i] != p {
      assert RootAt(fs, h, up, ids, args, addr, i);
    }
    forall id | id in h' ensures id == up || id in ids' {
      assert ids'[|ids|] == p && (id in ids ==> id in ids');
    }
  }

  // ---------------------------------------------------------------- the state after fts_open

  ghost function RootMeta(fs: FileSystem, arg: string): Meta { Meta(arg, fs.resolve(arg), {}) }

  ghost function RootMetas(fs: FileSystem, ids: seq<nat>, args: seq<string>): map<nat, Meta>
    requires |ids| == |args|
  {
    if ids == [] then map[] else RootMetas(fs, ids[1..], args[1..])[ids[0] := RootMeta(fs, args[0])]
  }

  lemma {:induction false} RootMetaAt(fs: FileSystem, ids: seq<nat>, args: seq<string>, i: nat)
    requires |ids| == |args| && i < |ids| && NoRepeats(ids)
    ensures ids[i] in RootMetas(fs, ids, args) && RootMetas(fs, ids, args)[ids[i]] == RootMeta(fs, args[i])
  {
    if i > 0 {
      RootMetaAt(fs, ids[1..], args[1..], i - 1);
    }
  }

  ghost function RootTasks(fs: FileSystem, args: seq<string>): (ts: seq<Task>)
    ensures |ts| == |args|
  {
    if args == [] then [] else [Task(RootMeta(fs, args[0]), false)] + RootTasks(fs, args[1..])
  }

  lemma {:induction false} RootTaskAt(fs: FileSystem, args: seq<string>, i: nat)
    requires i < |args|
    ensures RootTasks(fs, args)[i] == Task(RootMeta(fs, args[i]), false)
  {
    if i > 0 {
      RootTaskAt(fs, args[1..], i - 1);
    }
  }

  /** A dummy node comes first, as if it were the node before the first root. */
  ghost function Opened(
      fs: FileSystem, h: map<nat, Node>, up: nat, ids: seq<nat>, args: seq<string>, dummy: nat, addr: nat,
      cap: nat): View
    requires |ids| == |args|
  {
    View(h, [dummy] + ids + [up], RankWith(map[up := 0], [dummy] + ids, 1), RootMetas(fs, ids, args),
      RootTasks(fs, args), addr, cap)
  }

  ghost predicate Ready(
      fs: FileSystem, h: map<nat, Node>, up: nat, ids: seq<nat>, args: seq<string>, dummy: nat, addr: nat, cap: nat) {
    && |ids| == |args| > 0 && dummy in h && dummy != up && dummy !in ids
    && h[dummy].info == Init && h[dummy].level == 0 && h[dummy].link == Some(ids[0]) && h[dummy].parent == None
    && Roots(fs, h - {dummy}, up, ids, args, addr)
    && forall i | 0 <= i < |args| :: args[i] != "" && ArgOk(fs, args[i]) && |args[i]| < cap
  }

  lemma OpenIndex(dummy: nat, ids: seq<nat>, up: nat, k: nat)
    requires k < |ids| + 2
    ensures ([dummy] + ids + [up])[k] == if k == 0 then dummy else if k <= |ids| then ids[k - 1] else up
  {
  }

  lemma OpenRanked(h: map<nat, Node>, dummy: nat, ids: seq<nat>, up: nat)
    requires NoRepeats(ids) && dummy !in ids && dummy != up && up !in ids
    ensures Ranked([dummy] + ids + [up], RankWith(map[up := 0], [dummy] + ids, 1))
  {
    var list := [dummy] + ids;
    assert NoRepeats(list) && up !in list;
    RankWithGrows(map[up := 0], list, 1);
    var (o, r) := (list + [up], RankWith(map[up := 0], list, 1));
    forall k | 0 <= k < |o| ensures o[k] in r && r[o[k]] == |o| - 1 - k {
      if k < |list| {
        assert o[k] == list[k];
      }
    }
  }

  lemma OpenNode(
      fs: FileSystem, h: map<nat, Node>, up: nat, ids: seq<nat>, args: seq<string>, dummy: nat, addr: nat, cap: nat,
      i: nat)
    requires Ready(fs, h, up, ids, args, dummy, addr, cap) && i < |ids|
    ensures ids[i] in h
    ensures h[ids[i]] == RootNode(fs, args[i], up, if i + 1 < |ids| then Some(ids[i + 1]) else None, addr)
    ensures MetaOk(fs, RootMeta(fs, args[i])) && |args[i]| < cap && h[ids[i]].info != Init && ids[i] != up
    ensures ids[i] != dummy
  {
    assert RootAt(fs, h - {dummy}, up, ids, args, addr, i);
  }

  lemma OpenNext(
      fs: FileSystem, h: map<nat, Node>, up: nat, ids: seq<nat>, args: seq<string>, dummy: nat, addr: nat, cap: nat,
      k: nat)
    requires Ready(fs, h, up, ids, args, dummy, addr, cap) && Covers(h, [dummy] + ids + [up]) && k <= |ids|
    ensures NextAt(h, [dummy] + ids + [up], k)
  {
    OpenIndex(dummy, ids, up, k);
    OpenIndex(dummy, ids, up, k + 1);
    if k > 0 {
      OpenNode(fs, h, up, ids, args, dummy, addr, cap, k - 1);
    }
    if k < |ids| {
      OpenNode(fs, h, up, ids, args, dummy, addr, cap, k);
    }
  }

  lemma OpenCovers(
      fs: FileSystem, h: map<nat, Node>, up: nat, ids: seq<nat>, args: seq<string>, dummy: nat, addr: nat, cap: nat)
    requires Ready(fs, h, up, ids, args, dummy, addr, cap)
    ensures Covers(h, [dummy] + ids + [up])
  {
    var o := [dummy] + ids + [up];
    forall k | 0 <= k < |o| ensures o[k] in h {
      OpenIndex(dummy, ids, up, k);
      if 0 < k <= |ids| {
        OpenNode(fs, h, up, ids, args, dummy, addr, cap, k - 1);
      }
    }
    forall id | id in h ensures id in o {
      assert id == dummy || id in h - {dummy};
      assert o[0] == dummy && o[|ids| + 1] == up && (forall i | 0 <= i < |ids| :: o[i + 1] == ids[i]);
    }
  }

  lemma OpenParents(
      fs: FileSystem, h: map<nat, Node>, up: nat, ids: seq<nat>, args: seq<string>, dummy: nat, addr: nat, cap: nat,
      rank: map<nat, nat>)
    requires Ready(fs, h, up, ids, args, dummy, addr, cap) && Ranked([dummy] + ids + [up], rank)
    ensures ParentsLater(h, rank)
  {
    var o := [dummy] + ids + [up];
    forall id | id in h ensures ParentLater(h, rank, id) {
      if id != dummy && id != up {
        assert id in h - {dummy};
        var i :| 0 <= i < |ids| && ids[i] == id;
        OpenNode(fs, h, up, ids, args, dummy, addr, cap, i);
        OpenIndex(dummy, ids, up, i + 1);
        OpenIndex(dummy, ids, up, |ids| + 1);
      }
    }
  }

  lemma OpenShape(
      fs: FileSystem, h: map<nat, Node>, up: nat, ids: seq<nat>, args: seq<string>, dummy: nat, addr: nat, cap: nat)
    requires Ready(fs, h, up, ids, args, dummy, addr, cap)
    ensures var v := Opened(fs, h, up, ids, args, dummy, addr, cap); Shape(h, v.order, v.rank)
  {
    var v := Opened(fs, h, up, ids, args, dummy, addr, cap);
    OpenCovers(fs, h, up, ids, args, dummy, addr, cap);
    OpenRanked(h, dummy, ids, up);
    OpenParents(fs, h, up, ids, args, dummy, addr, cap, v.rank);
    forall k | 0 <= k < |v.order| - 1 ensures NextAt(h, v.order, k) {
      OpenNext(fs, h, up, ids, args, dummy, addr, cap, k);
    }
    OpenIndex(dummy, ids, up, |ids|);
    OpenNode(fs, h, up, ids, args, dummy, addr, cap, |ids| - 1);
  }

  lemma OpenNodes(
      fs: FileSystem, h: map<nat, Node>, up: nat, ids: seq<nat>, args: seq<string>, dummy: nat, addr: nat, cap: nat)
    requires Ready(fs, h, up, ids, args, dummy, addr, cap) && Covers(h, [dummy] + ids + [up])
    ensures NodesOk(fs, Opened(fs, h, up, ids, args, dummy, addr, cap))
  {
    var v := Opened(fs, h, up, ids, args, dummy, addr, cap);
    OpenIndex(dummy, ids, up, |ids| + 1);
    forall k | 0 <= k < |v.order| - 1 ensures NodeOk(fs, v, v.order[k], Root(v.order)) {
      OpenIndex(dummy, ids, up, k);
      if k > 0 {
        OpenNode(fs, h, up, ids, args, dummy, addr, cap, k - 1);
        RootMetaAt(fs, ids, args, k - 1);
      }
    }
  }

  lemma OpenTasks(
      fs: FileSystem, h: map<nat, Node>, up: nat, ids: seq<nat>, args: seq<string>, dummy: nat, addr: nat, cap: nat)
    requires Ready(fs, h, up, ids, args, dummy, addr, cap) && Covers(h, [dummy] + ids + [up])
    ensures TasksOk(Opened(fs, h, up, ids, args, dummy, addr, cap))
  {
    var v := Opened(fs, h, up, ids, args, dummy, addr, cap);
    forall k | 0 <= k < |v.later| ensures TaskAt(v, k) {
      OpenIndex(dummy, ids, up, k);
      OpenIndex(dummy, ids, up, k + 1);
      OpenNode(fs, h, up, ids, args, dummy, addr, cap, k);
      if k > 0 {
        OpenNode(fs, h, up, ids, args, dummy, addr, cap, k - 1);
      }
      RootMetaAt(fs, ids, args, k);
      RootTaskAt(fs, args, k);
    }
  }

  ghost predicate ArgsOk(fs: FileSystem, args: seq<string>) {
    forall i | 0 <= i < |args| :: args[i] != "" && ArgOk(fs, args[i])
  }

  /** Depth-first search from each of the arguments in turn. */
  ghost function WalkRoots(fs: FileSystem, args: seq<string>): seq<Visit>
    requires Static(fs) && ArgsOk(fs, args)
  {
    if args == [] then [] else Walk(fs.dirs, args[0], fs.resolve(args[0]), {}) + WalkRoots(fs, args[1..])
  }

  lemma {:induction false} RootsWalk(fs: FileSystem, args: seq<string>)
    requires Static(fs) && ArgsOk(fs, args) && TasksKnown(fs, RootTasks(fs, args))
    ensures Later(fs, RootTasks(fs, args)) == WalkRoots(fs, args)
  {
    if args != [] {
      var ts := RootTasks(fs, args);
      TasksJoin(fs, ts, []);
      assert ts[1..] == RootTasks(fs, args[1..]);
      RootsWalk(fs, args[1..]);
    }
  }

  /** What fts_open sets up is a traversal of all the arguments. */
  lemma OpenTree(
      fs: FileSystem, h: map<nat, Node>, up: nat, ids: seq<nat>, args: seq<string>, dummy: nat, addr: nat, cap: nat)
    requires Static(fs) && ArgsOk(fs, args) && Ready(fs, h, up, ids, args, dummy, addr, cap)
    ensures var v := Opened(fs, h, up, ids, args, dummy, addr, cap);
            TreeOk(fs, v) && v.order[0] == dummy && v.h[dummy].info == Init && Remaining(fs, v) == WalkRoots(fs, args)
  {
    var v := Opened(fs, h, up, ids, args, dummy, addr, cap);
    OpenShape(fs, h, up, ids, args, dummy, addr, cap);
    OpenNodes(fs, h, up, ids, args, dummy, addr, cap);
    OpenTasks(fs, h, up, ids, args, dummy, addr, cap);
    OpenIndex(dummy, ids, up, 0);
    RestFirst(fs, v);
    RootsWalk(fs, args);
  }
}
