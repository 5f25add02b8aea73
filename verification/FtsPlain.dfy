/** When a traversal is plain depth-first search, in which a directory is shown twice under the same path. */
module FtsPlain {
  import opened FtsSpec
  import opened FtsState
  import opened FtsBuild
  import opened FtsOpen

  /** The path of an entry: a slash between, unless the directory's path ends with one. */
  function Under(path: string, name: string): string
    requires path != ""
  {
    if path[|path| - 1] == '/' then path + name else path + "/" + name
  }

  /** fts_level is a short and stays at its largest value. */
  function Level(depth: nat): nat { if depth < 32767 then depth else 32767 }

  /** `depth` directories have been entered above; `anc` are they. */
  ghost function Dfs(dirs: map<Ino, seq<Entry>>, path: string, t: Target, anc: set<Ino>, depth: nat): seq<Visit>
    requires Sealed(dirs) && Known(dirs, t) && path != ""
    decreases |dirs.Keys - anc|, 0
  {
    if t.ToLeaf? then [Visit(path, t.info, Level(depth))]
    else if t.ino in anc then [Visit(path, DC, Level(depth))]
    else
      SmallerRest(dirs.Keys, anc, t.ino);
      [Visit(path, D, Level(depth))] + DfsEntries(dirs, path, dirs[t.ino], anc + {t.ino}, depth + 1) +
        [Visit(path, DP, Level(depth))]
  }

  /** All entries but "." and "..", each once, in the directory's order. */
  ghost function DfsEntries(
      dirs: map<Ino, seq<Entry>>, path: string, es: seq<Entry>, anc: set<Ino>, depth: nat): seq<Visit>
    requires Sealed(dirs) && KnownEntries(dirs, es) && path != ""
    decreases |dirs.Keys - anc|, |es|
  {
    if es == [] then []
    else if es[0].name == "." || es[0].name == ".." then DfsEntries(dirs, path, es[1..], anc, depth)
    else
      Dfs(dirs, Under(path, es[0].name), es[0].target, anc, depth) + DfsEntries(dirs, path, es[1..], anc, depth)
  }

  ghost function DfsRoots(fs: FileSystem, args: seq<string>): seq<Visit>
    requires Static(fs) && ArgsOk(fs, args)
  {
    if args == [] then [] else Dfs(fs.dirs, args[0], fs.resolve(args[0]), {}, 0) + DfsRoots(fs, args[1..])
  }

  ghost predicate ProperEntries(es: seq<Entry>) { forall k | 0 <= k < |es| :: ProperName(es[k].name) }

  ghost predicate ProperDirs(dirs: map<Ino, seq<Entry>>) { forall i | i in dirs :: ProperEntries(dirs[i]) }

  /** An empty directory named with a slash at the end. */
  ghost predicate EmptyWithSlash(dirs: map<Ino, seq<Entry>>, path: string, t: Target) {
    path != "" && path[|path| - 1] == '/' && t.ToDir? && t.ino in dirs && OnlyDots(dirs[t.ino])
  }

  predicate OnlyDots(es: seq<Entry>) {
    forall k | 0 <= k < |es| :: es[k].name == "." || es[k].name == ".."
  }

  lemma {:induction false} VisibleProper(es: seq<Entry>)
    ensures ProperEntries(es) ==> ProperEntries(Visible(es))
    ensures Visible(es) == [] <==> OnlyDots(es)
  {
    if es != [] {
      VisibleProper(es[1..]);
      assert OnlyDots(es) ==> OnlyDots(es[1..]);
      if OnlyDots(es[1..]) && IsDot(es[0].name) {
        assert forall k | 0 <= k < |es| :: k > 0 ==> es[k] == es[1..][k - 1];
      }
    }
  }

  /** `ix` are the places of all entries but "." and "..", in order. */
  ghost predicate Picks(es: seq<Entry>, ix: seq<nat>) {
    && (forall k | 0 <= k < |ix| :: ix[k] < |es|)
    && (forall j, k | 0 <= j < k < |ix| :: ix[j] < ix[k])
    && forall i | 0 <= i < |es| :: i in ix <==> es[i].name != "." && es[i].name != ".."
  }

  /** The entries that a directory's list is made of: all but "." and "..", each once, in the directory's order. */
  lemma {:induction false} VisibleIs(es: seq<Entry>) returns (ix: seq<nat>)
    ensures Picks(es, ix) && |Visible(es)| == |ix|
    ensures forall k | 0 <= k < |ix| :: Visible(es)[k] == es[ix[k]]
  {
    ix := [];
    if es != [] {
      var n := |es| - 1;
      var rest := VisibleIs(es[..n]);
      VisibleAppend(es[..n], es[n]);
      assert es == es[..n] + [es[n]];
      ix := rest + if es[n].name == "." || es[n].name == ".." then [] else [n];
      forall i | 0 <= i < |es| ensures i in ix <==> es[i].name != "." && es[i].name != ".." {
        if i < n { assert es[i] == es[..n][i]; }
      }
    }
  }

  lemma JoinIsUnder(path: string, name: string)
    requires path != ""
    ensures Join(path, name) == Under(path, name)
  {
    var n := |path|;
    if path[n - 1] == '/' {
      assert path == path[..n - 1] + "/";
    }
  }

  lemma SlashCut(path: string, es: seq<Entry>)
    requires path != ""
    ensures PostPath(path, es) == path <==> es != [] || path[|path| - 1] != '/'
  {
    assert |path[..Append(path)]| == Append(path);
    assert path[..|path|] == path;
  }

  lemma JoinEnd(path: string, name: string)
    requires path != "" && ProperName(name)
    ensures var full := Join(path, name); full != "" && full[|full| - 1] != '/'
  {
    var full := Join(path, name);
    assert full[|full| - 1] == name[|name| - 1];
  }

  /** Below the roots nothing is lost. */
  lemma {:induction false} EntriesPlain(
      dirs: map<Ino, seq<Entry>>, path: string, es: seq<Entry>, anc: set<Ino>, depth: nat)
    requires Sealed(dirs) && ProperDirs(dirs) && KnownEntries(dirs, es) && ProperEntries(es) && path != ""
    requires depth == |anc|
    ensures KnownEntries(dirs, Visible(es))
    ensures WalkEntries(dirs, path, Visible(es), anc) == DfsEntries(dirs, path, es, anc, depth)
    decreases |dirs.Keys - anc|, |es|
  {
    VisibleKnown(dirs, es);
    if es != [] {
      EntriesPlain(dirs, path, es[1..], anc, depth);
      if !IsDot(es[0].name) {
        JoinEnd(path, es[0].name);
        JoinIsUnder(path, es[0].name);
        PlainIff(dirs, Join(path, es[0].name), es[0].target, anc, depth);
        assert Visible(es)[0] == es[0] && Visible(es)[1..] == Visible(es[1..]);
      }
    }
  }

  /** A walk is plain unless it starts at an empty directory named with a slash at the end. */
  lemma {:induction false} PlainIff(dirs: map<Ino, seq<Entry>>, path: string, t: Target, anc: set<Ino>, depth: nat)
    requires Sealed(dirs) && ProperDirs(dirs) && Known(dirs, t) && path != "" && depth == |anc|
    ensures |Walk(dirs, path, t, anc)| == |Dfs(dirs, path, t, anc, depth)|
    ensures Walk(dirs, path, t, anc) == Dfs(dirs, path, t, anc, depth) <==>
      (t.ToDir? && t.ino in anc) || !EmptyWithSlash(dirs, path, t)
    decreases |dirs.Keys - anc|, 0
  {
    if t.ToDir? && t.ino !in anc {
      var (es, anc', level) := (dirs[t.ino], anc + {t.ino}, Depth(anc));
      SmallerRest(dirs.Keys, anc, t.ino);
      VisibleProper(es);
      EntriesPlain(dirs, path, es, anc', depth + 1);
      SlashCut(path, Visible(es));
      var first := [Visit(path, D, level)] + WalkEntries(dirs, path, Visible(es), anc');
      LastDiffers(first, Visit(PostPath(path, Visible(es)), DP, level), Visit(path, DP, level));
      assert Walk(dirs, path, t, anc) == first + [Visit(PostPath(path, Visible(es)), DP, level)];
      assert Dfs(dirs, path, t, anc, depth) == first + [Visit(path, DP, level)];
    }
  }

  lemma LastDiffers<T>(a: seq<T>, x: T, y: T)
    ensures a + [x] == a + [y] <==> x == y
  {
    assert (a + [x])[|a|] == x && (a + [y])[|a|] == y;
  }

  lemma Pieces<T>(a: seq<T>, b: seq<T>, c: seq<T>, d: seq<T>)
    requires |a| == |c|
    ensures a + b == c + d <==> a == c && b == d
  {
    assert (a + b)[..|a|] == a && (a + b)[|a|..] == b && (c + d)[..|c|] == c && (c + d)[|c|..] == d;
  }

  /** A traversal is plain exactly when none of its arguments is an empty directory with a slash at the end. */
  lemma {:induction false} RootsPlainIff(fs: FileSystem, args: seq<string>)
    requires Static(fs) && ArgsOk(fs, args)
    ensures WalkRoots(fs, args) == DfsRoots(fs, args) <==>
            forall i | 0 <= i < |args| :: !EmptyWithSlash(fs.dirs, args[i], fs.resolve(args[i]))
  {
    if args != [] {
      var t := fs.resolve(args[0]);
      PlainIff(fs.dirs, args[0], t, {}, 0);
      RootsPlainIff(fs, args[1..]);
      Pieces(Walk(fs.dirs, args[0], t, {}), WalkRoots(fs, args[1..]), Dfs(fs.dirs, args[0], t, {}, 0),
        DfsRoots(fs, args[1..]));
      assert forall i | 0 <= i < |args| - 1 :: args[1..][i] == args[i + 1];
      assert forall i | 0 < i < |args| :: args[i] == args[1..][i - 1];
    }
  }

  /** The empty directory d, opened as "d/", is shown as "d/" and then as "d". */
  lemma SlashIsLost(ino: Ino)
    ensures var dirs: map<Ino, seq<Entry>> := map[ino := []];
            Sealed(dirs) && Walk(dirs, "d/", ToDir(ino), {}) == [Visit("d/", D, 0), Visit("d", DP, 0)]
  {
    var dirs: map<Ino, seq<Entry>> := map[ino := []];
    assert Sealed(dirs);
    assert "d/"[..1] == "d";
    assert WalkInside(dirs, "d/", ino, {}) == [Visit("d", DP, 0)];
  }
}
