/**
 What monitorDirectory changes, entry by entry, and what it cannot change.
 */
module WatchEffects {
  import opened Wrappers
  import opened InotifyKernel
  import opened WatchTable
  import opened WatchInvariant

  function WatchesAt(st: State, x: int): seq<Watch> {
    if x in st.table then st.table[x].watches else []
  }

  /** The kernel only gained watches, each at the path recorded as its home. */
  ghost predicate Extends(k: Kernel, k': Kernel) {
    && k'.WellFormed() && k'.dirs == k.dirs && k'.queue == k.queue && k.nextWd <= k'.nextWd
    && (forall i :: i in k.wds ==> i in k'.wds && k'.wds[i] == k.wds[i])
    && (forall x :: x in k.home && x < k.nextWd ==> x in k'.home && k'.home[x] == k.home[x])
    && (forall i :: i in k'.wds && i !in k.wds ==>
                      && k'.wds[i] >= k.nextWd && k'.wds[i] in k'.home
                      && k'.home[k'.wds[i]] in k.dirs && k.dirs[k'.home[k'.wds[i]]] == i)
  }

  lemma AddWatchExtends(k: Kernel, p: Path)
    requires k.WellFormed()
    ensures Extends(k, k.AddWatch(p).0)
  {
    AddWatchKeeps(k, p);
  }

  lemma ExtendsTrans(k: Kernel, k1: Kernel, k2: Kernel)
    requires Extends(k, k1) && Extends(k1, k2)
    ensures Extends(k, k2)
  {
  }

  lemma ExtendsLive(k: Kernel, k': Kernel, x: int)
    requires Extends(k, k') && k.Live(x)
    ensures k'.Live(x)
  {
    var i :| i in k.wds && k.wds[i] == x;
    assert i in k'.wds && k'.wds[i] == x;
  }

  /** x watches one of the proper ancestors p[..j], lo <= j. */
  ghost predicate Between(k: Kernel, p: Path, lo: nat, x: int) {
    exists j :: lo <= j < |p| && p[..j] in k.dirs && WatchOf(k, p[..j]) == x
  }

  /** One move watch goes to the entry of the directory's own descriptor. */
  lemma AddMoveWatchAt(st: State, q: Path, wd: int, parentWd: int, x: int)
    requires st.kernel.WellFormed() && q in st.kernel.dirs
    ensures var (s, c) := AddMoveWatch(st, q, wd, parentWd);
            && Extends(st.kernel, s.kernel) && WatchOf(s.kernel, q) == c >= 1
            && s.nextId == st.nextId && s.descendants == st.descendants
            && (x in s.table <==> x in st.table || x == c)
            && (x in st.table ==> s.table[x].path == st.table[x].path)
            && (x == c && x !in st.table ==> s.table[x].path == q)
            && WatchesAt(s, x) == if x == c then WatchesAt(st, x) + [MoveWatch(wd)] else WatchesAt(st, x)
  {
    AddWatchKeeps(st.kernel, q);
    AddWatchExtends(st.kernel, q);
  }

  /** Entry x gains a move watch exactly if it watches one of the ancestors from i down; a new entry has the
      path of the one it watches. */
  ghost predicate ChainEffect(st: State, s: State, p: Path, wd: int, i: nat, x: int) {
    if Between(s.kernel, p, i, x)
    then WatchesAt(s, x) == WatchesAt(st, x) + [MoveWatch(wd)]
         && (x !in st.table ==> x in s.table && exists j :: i <= j < |p| && WatchOf(s.kernel, p[..j]) == x
                                                            && s.table[x].path == p[..j])
    else WatchesAt(s, x) == WatchesAt(st, x) && (x in s.table <==> x in st.table)
  }

  /** An entry of p's chain gains one move watch; the others, and all paths, stay. */
  lemma {:induction false} WatchPathAt(st: State, p: Path, wd: int, i: nat, parentWd: int, x: int)
    requires i <= |p| && st.kernel.WellFormed() && p in st.kernel.dirs && 1 <= x
    ensures var s := WatchPathForMoves(st, p, wd, i, parentWd).0;
            && Extends(st.kernel, s.kernel)
            && s.nextId == st.nextId && s.descendants == st.descendants
            && (x in st.table ==> s.table[x].path == st.table[x].path)
            && ChainEffect(st, s, p, wd, i, x)
    decreases |p| - i
  {
    if i < |p| {
      PrefixesExist(st.kernel, p, i);
      AddMoveWatchAt(st, p[..i], wd, parentWd, x);
      hide AddMoveWatch, ChainEffect;
      var (s, c) := AddMoveWatch(st, p[..i], wd, parentWd);
      WatchPathAt(s, p, wd, i + 1, c, x);
      var r := WatchPathForMoves(st, p, wd, i, parentWd).0;
      assert r == WatchPathForMoves(s, p, wd, i + 1, c).0;
      hide WatchPathForMoves;
      ExtendsTrans(st.kernel, s.kernel, r.kernel);
      ChainStep(st, s, r, p, wd, i, c, x);
    }
  }

  lemma ChainStep(st: State, s: State, r: State, p: Path, wd: int, i: nat, c: int, x: int)
    requires i < |p| && p[..i] in s.kernel.dirs && Extends(s.kernel, r.kernel) && WatchOf(s.kernel, p[..i]) == c >= 1
    requires x in s.table <==> x in st.table || x == c
    requires x == c && x !in st.table ==> s.table[x].path == p[..i]
    requires x in s.table ==> x in r.table && r.table[x].path == s.table[x].path
    requires WatchesAt(s, x) == if x == c then WatchesAt(st, x) + [MoveWatch(wd)] else WatchesAt(st, x)
    requires ChainEffect(s, r, p, wd, i + 1, x)
    ensures ChainEffect(st, r, p, wd, i, x)
  {
    assert WatchOf(r.kernel, p[..i]) == c;
    NextIsOther(r.kernel, p, i);
    hide Extends;
    assert Between(r.kernel, p, i, x) <==> x == c || Between(r.kernel, p, i + 1, x);
  }

  lemma NextIsOther(k: Kernel, p: Path, i: nat)
    requires k.WellFormed() && i < |p| && p[..i] in k.dirs && WatchOf(k, p[..i]) >= 1
    ensures !Between(k, p, i + 1, WatchOf(k, p[..i]))
  {
  }

  ghost predicate HasRegular(ws: seq<Watch>, location: Path) {
    exists w :: w in ws && Matches(RegularFor(location), w)
  }

  /** Entry x keeps its path; a new entry has the path of the chain directory it watches. */
  ghost predicate PathEffect(st: State, s: State, p: Path, x: int) {
    && (x in st.table ==> x in s.table && s.table[x].path == st.table[x].path)
    && (x in s.table && x !in st.table ==>
          exists j :: 0 <= j <= |p| && WatchOf(s.kernel, p[..j]) == x && s.table[x].path == p[..j])
  }

  /** Entry x gains a move watch for p exactly if x watches an ancestor of a start point, and nothing otherwise. */
  ghost predicate MoveEffect(st: State, s: State, p: Path, startPoint: bool, x: int) {
    WatchesAt(s, x) == if startPoint && Between(s.kernel, p, 0, x)
                       then WatchesAt(st, x) + [MoveWatch(WatchOf(s.kernel, p))] else WatchesAt(st, x)
  }

  /** p's own entry gains the autoscan watch, unless it has a regular one for that location. */
  ghost predicate OwnEffect(st: State, s: State, p: Path, adir: Adir, norm: Path, startPoint: bool,
                            missing: Option<PathArray>) {
    var x := WatchOf(s.kernel, p);
    && x in s.table
    && (|| WatchesAt(s, x) == WatchesAt(st, x) + [AutoscanWatch(st.nextId, startPoint, adir, norm, missing)]
        || (missing.None? && WatchesAt(s, x) == WatchesAt(st, x) && HasRegular(WatchesAt(s, x), adir.location)))
  }

  lemma WatchAboveAt(st: State, p: Path, wd: int, startPoint: bool, x: int)
    requires st.kernel.WellFormed() && p in st.kernel.dirs && 1 <= x && WatchOf(st.kernel, p) == wd >= 1
    ensures var s := WatchAbove(st, p, wd, startPoint).0;
            && Extends(st.kernel, s.kernel) && WatchOf(s.kernel, p) == wd && s.nextId == st.nextId
            && PathEffect(st, s, p, x) && MoveEffect(st, s, p, startPoint, x)
            && (x == wd ==> WatchesAt(s, x) == WatchesAt(st, x) && (x in s.table <==> x in st.table))
  {
    if startPoint {
      WatchPathAt(st, p, wd, 0, INOTIFY_ROOT, x);
      var s := WatchAbove(st, p, wd, startPoint).0;
      assert WatchOf(s.kernel, p) == wd;
    }
  }

  /** The second half of monitorDirectory, seen at entry x of the state before the walk. */
  lemma InstallAt(st: State, s: State, p: Path, adir: Adir, norm: Path, startPoint: bool,
                  missing: Option<PathArray>, wd: int, parentWd: int, x: int)
    requires Extends(st.kernel, s.kernel) && WatchOf(s.kernel, p) == wd >= 1 && s.nextId == st.nextId && 1 <= x
    requires WatchesAt(s, wd) == WatchesAt(st, wd) && (wd in s.table <==> wd in st.table)
    requires PathEffect(st, s, p, x) && MoveEffect(st, s, p, startPoint, x)
    ensures var r := Install(s, p, adir, norm, startPoint, missing, wd in st.table, wd, parentWd);
            && Extends(s.kernel, r.kernel) && WatchOf(r.kernel, p) == wd
            && PathEffect(st, r, p, x)
            && (x != wd ==> MoveEffect(st, r, p, startPoint, x))
            && OwnEffect(st, r, p, adir, norm, startPoint, missing)
  {
    var had := wd in st.table;
    InstallKernel(s, p, adir, norm, startPoint, missing, had, wd, parentWd);
    InstallTable(s, p, adir, norm, startPoint, missing, had, wd, parentWd);
    var r := Install(s, p, adir, norm, startPoint, missing, had, wd, parentWd);
    assert WatchOf(r.kernel, p) == wd;
    assert startPoint ==> r.kernel == s.kernel;
    hide Between, Install;
    InstallPath(st, s, r, p, wd, x);
    hide PathEffect;
  }

  lemma InstallPath(st: State, s: State, r: State, p: Path, wd: int, x: int)
    requires Extends(s.kernel, r.kernel) && WatchOf(r.kernel, p) == wd >= 1 && 1 <= x
    requires PathEffect(st, s, p, x) && (wd in s.table <==> wd in st.table)
    requires r.table.Keys == s.table.Keys + {wd} && (x in s.table && x != wd ==> r.table[x] == s.table[x])
    requires r.table[wd].path == if wd in s.table then s.table[wd].path else p
    ensures PathEffect(st, r, p, x)
  {
    assert p[..|p|] == p;
    if x in s.table && x !in st.table {
      var j :| 0 <= j <= |p| && WatchOf(s.kernel, p[..j]) == x && s.table[x].path == p[..j];
      assert WatchOf(r.kernel, p[..j]) == x;
    }
  }

  /** The effect of monitorDirectory on the existing directory p, seen at entry x. */
  lemma MonitorExistingAt(st: State, p: Path, adir: Adir, norm: Path, startPoint: bool,
                          missing: Option<PathArray>, x: int)
    requires st.kernel.WellFormed() && p in st.kernel.dirs && 1 <= x
    ensures var s := MonitorExisting(st, p, adir, norm, startPoint, missing);
            && Extends(st.kernel, s.kernel) && WatchOf(s.kernel, p) >= 1
            && PathEffect(st, s, p, x)
            && (x != WatchOf(s.kernel, p) ==> MoveEffect(st, s, p, startPoint, x))
            && OwnEffect(st, s, p, adir, norm, startPoint, missing)
  {
    var (k, wd) := st.kernel.AddWatch(p);
    AddWatchKeeps(st.kernel, p);
    AddWatchExtends(st.kernel, p);
    var s0 := st.(kernel := k);
    var (s, parentWd) := WatchAbove(s0, p, wd, startPoint);
    WatchAboveAt(s0, p, wd, startPoint, x);
    WatchAboveAt(s0, p, wd, startPoint, wd);
    InstallAt(s0, s, p, adir, norm, startPoint, missing, wd, parentWd, x);
    var r := Install(s, p, adir, norm, startPoint, missing, wd in st.table, wd, parentWd);
    assert r == MonitorExisting(st, p, adir, norm, startPoint, missing);
    hide Install, MonitorExisting, WatchAbove, Kernel.AddWatch;
    ExtendsTrans(st.kernel, k, s.kernel);
    ExtendsTrans(st.kernel, s.kernel, r.kernel);
    EffectsIgnoreKernel(st, s0, r, p, adir, norm, startPoint, missing, x);
  }

  lemma EffectsIgnoreKernel(st: State, s0: State, r: State, p: Path, adir: Adir, norm: Path, startPoint: bool,
                            missing: Option<PathArray>, x: int)
    requires s0 == st.(kernel := s0.kernel)
    ensures PathEffect(s0, r, p, x) ==> PathEffect(st, r, p, x)
    ensures MoveEffect(s0, r, p, startPoint, x) ==> MoveEffect(st, r, p, startPoint, x)
    ensures OwnEffect(s0, r, p, adir, norm, startPoint, missing) ==>
              OwnEffect(st, r, p, adir, norm, startPoint, missing)
  {
  }

  /** Install writes one entry. */
  lemma InstallTable(s: State, p: Path, adir: Adir, norm: Path, startPoint: bool,
                     missing: Option<PathArray>, had: bool, wd: int, parentWd: int)
    requires had <==> wd in s.table
    ensures var r := Install(s, p, adir, norm, startPoint, missing, had, wd, parentWd);
            && r.table.Keys == s.table.Keys + {wd}
            && (forall y :: y in s.table && y != wd ==> r.table[y] == s.table[y])
            && r.table[wd].path == (if had then s.table[wd].path else p)
            && (|| r.table[wd].watches == WatchesAt(s, wd) + [AutoscanWatch(s.nextId, startPoint, adir, norm, missing)]
                || (missing.None? && r.table[wd].watches == WatchesAt(s, wd)
                    && HasRegular(WatchesAt(s, wd), adir.location)))
  {
    var e := EntryFor(s.table, had, p, wd, parentWd);
    var i := FirstIndex(e.watches, RegularFor(adir.location));
    if had && missing.None? && i < |e.watches| {
      assert e.watches[i] in e.watches;
    }
  }

  /** Install at most asks the kernel for the start point's descriptor. */
  lemma InstallKernel(s: State, p: Path, adir: Adir, norm: Path, startPoint: bool,
                      missing: Option<PathArray>, had: bool, wd: int, parentWd: int)
    requires s.kernel.WellFormed() && (had ==> wd in s.table)
    ensures Extends(s.kernel, Install(s, p, adir, norm, startPoint, missing, had, wd, parentWd).kernel)
  {
    var r := Install(s, p, adir, norm, startPoint, missing, had, wd, parentWd);
    assert r.kernel == s.kernel || r.kernel == s.kernel.AddWatch(norm).0;
    AddWatchExtends(s.kernel, norm);
  }

  lemma ExtendsLiveBack(k: Kernel, k': Kernel, x: int)
    requires Extends(k, k') && k'.Live(x) && x < k.nextWd
    ensures k.Live(x)
  {
    var i :| i in k'.wds && k'.wds[i] == x;
    assert i in k.wds && k.wds[i] == x;
  }
}
