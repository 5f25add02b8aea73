/** The list of nodes that fts_build makes for a directory, one entry after the other. */
module FtsBuild {
  import opened Common
  import opened FtsSpec
  import opened FtsState

  ghost predicate NoRepeats(ids: seq<nat>) {
    forall i, j | 0 <= i < j < |ids| :: ids[i] != ids[j]
  }

  ghost predicate Increasing(kids: seq<nat>) {
    forall i, j | 0 <= i < j < |kids| :: kids[i] < kids[j]
  }

  ghost predicate KidsOk(fs: FileSystem, h: map<nat, Node>, kids: seq<nat>, es: seq<Entry>, m: Meta, ino: Ino, cap: nat)
    requires m.full != "" && |kids| == |es|
  {
    forall i {:trigger KidAt(fs, h, kids, es, m, ino, cap, i)} | 0 <= i < |kids| ::
      KidAt(fs, h, kids, es, m, ino, cap, i)
  }

  ghost predicate KidAt(
      fs: FileSystem, h: map<nat, Node>, kids: seq<nat>, es: seq<Entry>, m: Meta, ino: Ino, cap: nat, i: nat)
    requires m.full != "" && i < |kids| == |es|
  {
    kids[i] in h && KidOk(fs, h[kids[i]], es[i], m, ino, cap)
  }

  /** Nodes `kids` for the entries `es` of the directory `up` have been added to `was`. */
  ghost predicate Built(
      fs: FileSystem, was: map<nat, Node>, h: map<nat, Node>, kids: seq<nat>, es: seq<Entry>, up: nat, m: Meta,
      ino: Ino, cap: nat) {
    && m.full != "" && |kids| == |es| && Increasing(kids)
    && Grown(was, h, kids) && KidLinks(h, kids, up) && KidsOk(fs, h, kids, es, m, ino, cap)
  }

  /** The last node of the list points to the new one. */
  ghost function Appended(h: map<nat, Node>, kids: seq<nat>, p: nat, n: Node): map<nat, Node>
    requires kids != [] ==> kids[|kids| - 1] in h
  {
    if kids == [] then h[p := n]
    else h[kids[|kids| - 1] := h[kids[|kids| - 1]].(link := Some(p))][p := n]
  }

  lemma AppendGrown(was: map<nat, Node>, h: map<nat, Node>, kids: seq<nat>, p: nat, n: Node)
    requires Grown(was, h, kids) && p !in h && (kids != [] ==> kids[|kids| - 1] in h)
    ensures Grown(was, Appended(h, kids, p, n), kids + [p])
  {
    var h' := Appended(h, kids, p, n);
    forall id | id in was ensures id in h' && SameBut(was[id], h'[id]) {
      assert id in h && id !in kids;
    }
    forall id | id in h' ensures id in was || id in kids + [p] {
      assert (kids + [p])[|kids|] == p;
      if id != p && id !in was {
        assert id in kids;
      }
    }
  }

  lemma AppendLink(h: map<nat, Node>, kids: seq<nat>, p: nat, n: Node, up: nat, i: nat)
    requires KidLinks(h, kids, up) && Increasing(kids) && p !in h && (kids != [] ==> kids[|kids| - 1] in h)
    requires i <= |kids|
    requires n.parent == Some(up) && n.link == None && n.info != Init
    ensures KidLink(Appended(h, kids, p, n), kids + [p], up, i)
  {
    if i < |kids| {
      assert KidLink(h, kids, up, i);
    }
  }

  lemma AppendKid(
      fs: FileSystem, h: map<nat, Node>, kids: seq<nat>, es: seq<Entry>, m: Meta, ino: Ino, cap: nat, cap': nat,
      p: nat, n: Node, e: Entry, i: nat)
    requires m.full != "" && |kids| == |es| && KidsOk(fs, h, kids, es, m, ino, cap) && cap <= cap' && p !in h
    requires i <= |kids|
    requires KidOk(fs, n, e, m, ino, cap') && (kids != [] ==> kids[|kids| - 1] in h)
    ensures KidAt(fs, Appended(h, kids, p, n), kids + [p], es + [e], m, ino, cap', i)
  {
    if i < |kids| {
      assert KidAt(fs, h, kids, es, m, ino, cap, i);
    }
  }

  lemma AppendLinks(h: map<nat, Node>, kids: seq<nat>, p: nat, n: Node, up: nat)
    requires KidLinks(h, kids, up) && Increasing(kids) && p !in h && (kids != [] ==> kids[|kids| - 1] in h)
    requires n.parent == Some(up) && n.link == None && n.info != Init
    ensures KidLinks(Appended(h, kids, p, n), kids + [p], up)
  {
    forall i | 0 <= i < |kids + [p]| ensures KidLink(Appended(h, kids, p, n), kids + [p], up, i) {
      AppendLink(h, kids, p, n, up, i);
    }
  }

  lemma AppendKids(
      fs: FileSystem, h: map<nat, Node>, kids: seq<nat>, es: seq<Entry>, m: Meta, ino: Ino, cap: nat, cap': nat,
      p: nat, n: Node, e: Entry)
    requires m.full != "" && |kids| == |es| && KidsOk(fs, h, kids, es, m, ino, cap) && cap <= cap' && p !in h
    requires KidOk(fs, n, e, m, ino, cap') && (kids != [] ==> kids[|kids| - 1] in h)
    ensures KidsOk(fs, Appended(h, kids, p, n), kids + [p], es + [e], m, ino, cap')
  {
    var (h', ks, es') := (Appended(h, kids, p, n), kids + [p], es + [e]);
    forall i | 0 <= i < |ks| ensures KidAt(fs, h', ks, es', m, ino, cap', i) {
      AppendKid(fs, h, kids, es, m, ino, cap, cap', p, n, e, i);
    }
  }

  lemma AppendIncreasing(kids: seq<nat>, p: nat)
    requires Increasing(kids) && (kids != [] ==> kids[|kids| - 1] < p)
    ensures Increasing(kids + [p])
  {
  }

  lemma AppendBuilt(
      fs: FileSystem, was: map<nat, Node>, h: map<nat, Node>, kids: seq<nat>, es: seq<Entry>, up: nat, m: Meta,
      ino: Ino, cap: nat,
                    p: nat, n: Node, e: Entry, cap': nat)
    requires Built(fs, was, h, kids, es, up, m, ino, cap) && cap <= cap' && p !in h
    requires (kids != [] ==> kids[|kids| - 1] < p)
    requires n.parent == Some(up) && n.link == None && n.info != Init && KidOk(fs, n, e, m, ino, cap')
    ensures kids != [] ==> kids[|kids| - 1] in h
    ensures Built(fs, was, Appended(h, kids, p, n), kids + [p], es + [e], up, m, ino, cap')
  {
    if kids != [] {
      assert KidLink(h, kids, up, |kids| - 1);
    }
    AppendIncreasing(kids, p);
    AppendGrown(was, h, kids, p, n);
    AppendLinks(h, kids, p, n, up);
    AppendKids(fs, h, kids, es, m, ino, cap, cap', p, n, e);
  }

  // ---------------------------------------------------------------- ghost maps for the new nodes

  ghost function RankWith(rank: map<nat, nat>, kids: seq<nat>, n: nat): map<nat, nat> {
    if kids == [] then rank else RankWith(rank, kids[1..], n)[kids[0] := n + |kids| - 1]
  }

  lemma {:induction false} RankWithGrows(rank: map<nat, nat>, kids: seq<nat>, n: nat)
    requires NoRepeats(kids)
    ensures RankGrown(rank, RankWith(rank, kids, n), kids, n)
  {
    if kids != [] {
      var r := RankWith(rank, kids[1..], n);
      RankWithGrows(rank, kids[1..], n);
      forall i | 0 <= i < |kids| ensures kids[i] in r[kids[0] := n + |kids| - 1] &&
        r[kids[0] := n + |kids| - 1][kids[i]] == n + |kids| - 1 - i {
        if i > 0 {
          assert kids[1..][i - 1] == kids[i];
        }
      }
    }
  }

  ghost function MetaWith(meta: map<nat, Meta>, kids: seq<nat>, es: seq<Entry>, m: Meta, ino: Ino): map<nat, Meta>
    requires m.full != "" && |kids| == |es|
  {
    if kids == [] then meta else MetaWith(meta, kids[1..], es[1..], m, ino)[kids[0] := KidMeta(m, ino, es[0])]
  }

  lemma {:induction false} MetaWithGrows(meta: map<nat, Meta>, kids: seq<nat>, es: seq<Entry>, m: Meta, ino: Ino)
    requires m.full != "" && |kids| == |es| && Increasing(kids)
    ensures MetaGrown(meta, MetaWith(meta, kids, es, m, ino), kids, es, m, ino)
  {
    if kids != [] {
      var r := MetaWith(meta, kids[1..], es[1..], m, ino);
      MetaWithGrows(meta, kids[1..], es[1..], m, ino);
      forall i | 0 <= i < |kids| ensures kids[i] in r[kids[0] := KidMeta(m, ino, es[0])] &&
        r[kids[0] := KidMeta(m, ino, es[0])][kids[i]] == KidMeta(m, ino, es[i]) {
        if i > 0 {
          assert kids[1..][i - 1] == kids[i] && es[1..][i - 1] == es[i];
        }
      }
    }
  }

  // ---------------------------------------------------------------- entries

  lemma {:induction false} VisibleAppend(es: seq<Entry>, e: Entry)
    ensures Visible(es + [e]) == Visible(es) + if IsDot(e.name) then [] else [e]
  {
    if es != [] {
      assert (es + [e])[1..] == es[1..] + [e];
      VisibleAppend(es[1..], e);
    }
  }

  lemma EntryMeta(fs: FileSystem, m: Meta, ino: Ino, k: nat)
    requires Static(fs) && MetaOk(fs, m) && m.target == ToDir(ino) && k < |fs.dirs[ino]|
    ensures ProperName(fs.dirs[ino][k].name) && MetaOk(fs, KidMeta(m, ino, fs.dirs[ino][k]))
  {
    var e := fs.dirs[ino][k];
    assert KnownEntries(fs.dirs, fs.dirs[ino]);
    assert '\0' !in Join(m.full, e.name);
  }

  // ---------------------------------------------------------------- the finished list

  /** Every node but `root` has the address of the buffer; nothing else is different. */
  ghost predicate Settled(h: map<nat, Node>, h': map<nat, Node>, root: nat, addr: nat) {
    h'.Keys == h.Keys && forall id | id in h :: SameBut(h[id], h'[id]) && (id == root || h'[id].pathAddr == addr)
  }

  lemma SettledBuilt(
      fs: FileSystem, was: map<nat, Node>, h: map<nat, Node>, h': map<nat, Node>, kids: seq<nat>, es: seq<Entry>,
      up: nat, m: Meta, ino: Ino, cap: nat, root: nat, addr: nat)
    requires Built(fs, was, h, kids, es, up, m, ino, cap) && Settled(h, h', root, addr)
    ensures Built(fs, was, h', kids, es, up, m, ino, cap)
  {
    forall i | 0 <= i < |kids| ensures KidLink(h', kids, up, i) {
      assert KidLink(h, kids, up, i);
    }
    forall i | 0 <= i < |kids| ensures KidAt(fs, h', kids, es, m, ino, cap, i) {
      assert KidAt(fs, h, kids, es, m, ino, cap, i);
    }
  }

  ghost function EnteredView(v: View, h: map<nat, Node>, kids: seq<nat>, es: seq<Entry>, addr: nat, cap: nat): View
    requires v.order != [] && v.order[0] in v.h && v.order[0] in v.meta && v.meta[v.order[0]].full != ""
    requires |kids| == |es| > 0
  {
    var (m, ino) := (v.meta[v.order[0]], v.h[v.order[0]].ino);
    View(h, kids + v.order, RankWith(v.rank, kids, |v.order|), MetaWith(v.meta, kids, es, m, ino),
         KidTasks(m, ino, es)[1..] + [Task(m, true)] + v.later, addr, cap)
  }

  lemma BuiltEnters(
      fs: FileSystem, v: View, h: map<nat, Node>, h': map<nat, Node>, kids: seq<nat>, es: seq<Entry>, addr: nat,
      cap: nat)
    requires |v.order| >= 2 && v.order[0] in v.h && v.order[0] in v.meta && kids != [] && cap >= v.cap
    requires Inside(v.h[v.order[0]], v.meta[v.order[0]])
    requires Built(fs, v.h, h, kids, es, v.order[0], v.meta[v.order[0]], v.h[v.order[0]].ino, cap)
    requires Settled(h, h', Root(v.order), addr)
    ensures Entering(fs, v, EnteredView(v, h', kids, es, addr, cap), kids, es)
  {
    var (c, m, ino) := (v.order[0], v.meta[v.order[0]], v.h[v.order[0]].ino);
    SettledBuilt(fs, v.h, h, h', kids, es, c, m, ino, cap, Root(v.order), addr);
    RankWithGrows(v.rank, kids, |v.order|);
    MetaWithGrows(v.meta, kids, es, m, ino);
    forall i | 0 <= i < |kids| ensures kids[i] in h' && KidOk(fs, h'[kids[i]], es[i], m, ino, cap) {
      assert KidAt(fs, h', kids, es, m, ino, cap, i);
    }
  }
}
