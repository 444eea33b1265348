/**
 checkMoveWatches runs over a list that its own clean-up can make longer. It ends all the
 same: each iteration drops a move watch and passes an index, and what it adds is one
 watch, or is paid for by a missing-path watch that leaves another entry.
 */
module WatchMoves {
  import opened Wrappers
  import opened InotifyKernel
  import opened WatchTable
  import opened WatchSweep
  import opened WatchInvariant
  import opened WatchEffects
  import opened WatchCleanup

  // ----- missing-path watches are no start points -----

  ghost predicate PlainList(ws: seq<Watch>) {
    forall w :: w in ws && w.Missing() ==> !w.startPoint
  }

  ghost predicate Plain(t: Table) {
    forall x :: x in t ==> PlainList(t[x].watches)
  }

  lemma {:induction false} WatchPathPlain(st: State, p: Path, wd: int, i: nat, parentWd: int)
    requires i <= |p| && Plain(st.table)
    ensures Plain(WatchPathForMoves(st, p, wd, i, parentWd).0.table)
    decreases |p| - i
  {
    if i < |p| {
      var (s, c) := AddMoveWatch(st, p[..i], wd, parentWd);
      WatchPathPlain(s, p, wd, i + 1, c);
    }
  }

  lemma MonitorExistingPlain(st: State, p: Path, adir: Adir, norm: Path, startPoint: bool, missing: Option<PathArray>)
    requires p in st.kernel.dirs && Plain(st.table) && (missing.Some? ==> !startPoint)
    ensures Plain(MonitorExisting(st, p, adir, norm, startPoint, missing).table)
  {
    var (k, wd) := st.kernel.AddWatch(p);
    var s0 := st.(kernel := k);
    WatchPathPlain(s0, p, wd, 0, INOTIFY_ROOT);
    var (s, parentWd) := WatchAbove(s0, p, wd, startPoint);
    InstallPlain(s, p, adir, norm, startPoint, missing, wd in st.table, wd, parentWd);
  }

  lemma InstallPlain(s: State, p: Path, adir: Adir, norm: Path, startPoint: bool, missing: Option<PathArray>,
                     had: bool, wd: int, parentWd: int)
    requires Plain(s.table) && (had ==> wd in s.table) && (missing.Some? ==> !startPoint)
    ensures Plain(Install(s, p, adir, norm, startPoint, missing, had, wd, parentWd).table)
  {
    var e := EntryFor(s.table, had, p, wd, parentWd);
    assert PlainList(e.watches);
    assert PlainList(AppendWatch(e, AutoscanWatch(s.nextId, startPoint, adir, norm, missing)).watches);
  }

  lemma DropWatchPlain(st: State, wd: int, i: nat)
    requires wd in st.table && i < |st.table[wd].watches| && Plain(st.table)
    ensures Plain(DropWatch(st, wd, i).table)
  {
    assert forall w :: w in RemoveUnordered(st.table[wd].watches, i) ==> w in st.table[wd].watches;
  }

  lemma RecheckPlain(st: State, curWd: int, arr: PathArray, adir: Adir, norm: Path)
    requires [] in st.kernel.dirs && (curWd != -1 ==> curWd in st.table) && Plain(st.table)
    ensures Plain(RecheckNonexistingMonitor(st, curWd, arr, adir, norm).table)
  {
    var n := Deepest(st.kernel.dirs, arr.comps);
    var s := if curWd != -1 then RemoveNonexistingMonitor(st, curWd, arr.id) else st;
    if curWd != -1 {
      var i := FirstIndex(st.table[curWd].watches, MissingWith(arr.id));
      if i < |st.table[curWd].watches| { DropWatchPlain(st, curWd, i); }
    }
    if n == |arr.comps| {
      MonitorExistingPlain(s, arr.comps[..n], adir, norm, true, None);
    } else {
      MonitorExistingPlain(s, arr.comps[..n], adir, norm, false, Some(arr));
    }
  }

  lemma MonitorNonexistingPlain(st: State, p: Path, adir: Adir, norm: Path)
    requires [] in st.kernel.dirs && Plain(st.table)
    ensures Plain(MonitorNonexisting(st, p, adir, norm).table)
  {
    RecheckPlain(st.(nextId := st.nextId + 1), -1, PathArray(st.nextId, p), adir, norm);
  }

  lemma MonitorDirectoryPlain(st: State, p: Path, adir: Adir, norm: Path, startPoint: bool)
    requires [] in st.kernel.dirs && Plain(st.table)
    ensures Plain(MonitorDirectory(st, p, adir, norm, startPoint, None).table)
  {
    if p in st.kernel.dirs {
      MonitorExistingPlain(st, p, adir, norm, startPoint, None);
    } else {
      MonitorNonexistingPlain(st, p, adir, norm);
    }
  }

  lemma {:induction false} RecheckFromPlain(st: State, wd: int, i: nat, n: nat)
    requires wd in st.table && [] in st.kernel.dirs && Plain(st.table)
    ensures Plain(RecheckFrom(st, wd, i, n).table)
    decreases n - i
  {
    if i < n && i < |st.table[wd].watches| {
      var w := st.table[wd].watches[i];
      if w.Missing() { RecheckPlain(st, wd, w.nonexisting.value, w.adir, w.normPath); }
      RecheckFromPlain(RecheckOne(st, wd, i), wd, i + 1, n);
    }
  }

  lemma GiveUpMovedPlain(st: State, removeWd: int)
    requires [] in st.kernel.dirs && Plain(st.table)
    ensures Plain(GiveUpMoved(st, removeWd).table)
  {
    if removeWd in st.table {
      RecheckFromPlain(st, removeWd, 0, |st.table[removeWd].watches|);
      var s := RecheckNonexistingMonitors(st, removeWd);
      var s1 := s.(kernel := s.kernel.RemoveWatch(removeWd));
      var e := s1.table[removeWd];
      var i := FirstIndex(e.watches, AnyStartPoint);
      if i < |e.watches| { MonitorNonexistingPlain(s1, e.path, e.watches[i].adir, e.watches[i].normPath); }
    }
  }

  lemma CheckMoveAtPlain(st: State, wd: int, i: nat)
    requires wd in st.table && [] in st.kernel.dirs && Plain(st.table)
    ensures Plain(CheckMoveAt(st, wd, i).table)
  {
    var ws := st.table[wd].watches;
    if i < |ws| && ws[i].MoveWatch? {
      DropWatchPlain(st, wd, i);
      GiveUpMovedPlain(DropWatch(st, wd, i), ws[i].removeWd);
    }
  }

  lemma {:induction false} CheckMovesPlain(st: State, wd: int, steps: nat)
    requires wd in st.table && [] in st.kernel.dirs && Plain(st.table)
    ensures Plain(CheckMoves(st, wd, steps).table)
  {
    hide CheckMoveAt;
    if steps > 0 {
      CheckMovesPlain(st, wd, steps - 1);
      CheckMoveAtPlain(CheckMoves(st, wd, steps - 1), wd, steps - 1);
    }
  }

  lemma {:induction false} MonitorEachPlain(st: State, ps: seq<Path>, adir: Adir, norm: Path)
    requires [] in st.kernel.dirs && Plain(st.table)
    ensures Plain(MonitorEach(st, ps, adir, norm).table)
    decreases |ps|
  {
    if ps != [] {
      MonitorDirectoryPlain(st, ps[0], adir, norm, false);
      MonitorEachPlain(MonitorDirectory(st, ps[0], adir, norm, false, None), ps[1..], adir, norm);
    }
  }

  lemma MonitorRecursivePlain(st: State, p: Path, adir: Adir, norm: Path, startPoint: bool, below: seq<Path>)
    requires [] in st.kernel.dirs && Plain(st.table)
    ensures Plain(MonitorRecursive(st, p, adir, norm, startPoint, below).table)
  {
    MonitorDirectoryPlain(st, p, adir, norm, startPoint);
    MonitorEachPlain(MonitorDirectory(st, p, adir, norm, startPoint, None), below, adir, norm);
  }

  lemma UnmonitorDirectoryPlain(st: State, p: Path, adir: Adir)
    requires Plain(st.table)
    ensures Plain(UnmonitorDirectory(st, p, adir).table)
  {
    var (k, wd) := st.kernel.AddWatch(p);
    if wd in st.table {
      var i := FirstIndex(st.table[wd].watches, RegularFor(adir.location));
      if i < |st.table[wd].watches| { DropWatchPlain(st.(kernel := k), wd, i); }
    }
  }

  lemma {:induction false} UnmonitorEachPlain(st: State, ps: seq<Path>, adir: Adir)
    requires Plain(st.table)
    ensures Plain(UnmonitorEach(st, ps, adir).table)
    decreases |ps|
  {
    if ps != [] {
      UnmonitorDirectoryPlain(st, ps[0], adir);
      UnmonitorEachPlain(UnmonitorDirectory(st, ps[0], adir), ps[1..], adir);
    }
  }

  lemma {:induction false} SweepAllPlain(st: State, xs: seq<int>, wd: int)
    requires (forall i :: 0 <= i < |xs| ==> xs[i] in st.table) && Plain(st.table)
    ensures Plain(SweepAll(st, xs, wd).table)
    decreases |xs|
  {
    if xs != [] {
      var ws := st.table[xs[0]].watches;
      forall v | v in Sweep(ws, MoveWatch(wd), 0) ensures v in ws {
        SweepDropsOnlyTarget(ws, MoveWatch(wd), 0, v);
        assert multiset(Sweep(ws, MoveWatch(wd), 0))[v] > 0;
      }
      SweepAllPlain(SweepEntry(st, xs[0], wd), xs[1..], wd);
    }
  }

  lemma DirectoriesPlain(st: State, ev: Event, found: Option<Watch>, path: Path, below: seq<Path>, steps: nat)
    requires ev.wd in st.table && [] in st.kernel.dirs && (found.Some? ==> found.value.Regular()) && Plain(st.table)
    ensures Plain(HandleDirectories(st, ev, found, path, below, steps).table)
  {
    hide CheckMoves, RecheckNonexistingMonitors, MonitorRecursive;
    CheckMovesPlain(st, ev.wd, steps);
    var s1 := if ev.kind.MoveSelf? then CheckMoves(st, ev.wd, steps) else st;
    RecheckAllPlain(s1, ev.wd);
    var s2 := if SelfKind(ev.kind) then RecheckNonexistingMonitors(s1, ev.wd) else s1;
    RecheckAllPlain(s2, ev.wd);
    var s3 := if ev.isDir && (ev.kind.Create? || ev.kind.MovedTo?)
              then RecheckNonexistingMonitors(s2, ev.wd) else s2;
    if found.Some? { MonitorRecursivePlain(s3, path, found.value.adir, found.value.normPath, false, below); }
  }

  lemma RecheckAllPlain(st: State, wd: int)
    requires wd in st.table && [] in st.kernel.dirs && Plain(st.table)
    ensures Plain(RecheckNonexistingMonitors(st, wd).table)
  {
    RecheckFromPlain(st, wd, 0, |st.table[wd].watches|);
  }

  lemma ContentPlain(st: State, ev: Event, found: Watch, path: Path, below: seq<Path>)
    requires ev.wd in st.table && [] in st.kernel.dirs && found.Regular() && Plain(st.table)
    ensures Plain(HandleContent(st, ev, found, path, below).table)
  {
    var s := st.(kernel := st.kernel.RemoveWatch(ev.wd));
    var ws := s.table[ev.wd].watches;
    var i := FirstIndex(ws, AnyStartPoint);
    if i < |ws| { MonitorNonexistingPlain(s, path, ws[i].adir, ws[i].normPath); }
    MonitorRecursivePlain(st, path, found.adir, found.normPath, false, below);
  }

  lemma HandleEventPlain(st: State, below: seq<Path>, steps: nat)
    requires st.kernel.queue != [] && [] in st.kernel.dirs && Plain(st.table)
    ensures Plain(HandleEvent(st, below, steps).table)
  {
    var ev := st.kernel.queue[0];
    var s := Dequeued(st);
    if ev.wd in s.table {
      var path := EventPath(s.table[ev.wd], ev);
      var found := BestMatch(s.table[ev.wd].watches, path);
      DirectoriesPlain(s, ev, found, path, below, steps);
      var s1 := HandleDirectories(s, ev, found, path, below, steps);
      if found.Some? { ContentPlain(s1, ev, found.value, path, below); }
      ForgetPlain(Dispatch(s, ev, below, steps), ev.wd);
    }
  }

  lemma ForgetPlain(st: State, wd: int)
    requires Plain(st.table)
    ensures Plain(Forget(st, wd).table)
  {
    SweepAllPlain(st, Ancestors(st.table, wd), wd);
  }

  /** In every run no missing-path watch is a start point. */
  lemma {:induction false} RunsKeepPlain(run: seq<State>, n: nat)
    requires Behaviour(run) && n < |run|
    ensures Plain(run[n].table)
  {
    if n > 0 {
      RunsKeepPlain(run, n - 1);
      assert Step(run[n - 1], run[n - 1 + 1]);
      StepPlain(run[n - 1], run[n]);
    }
  }

  lemma StepPlain(st: State, st': State)
    requires Plain(st.table) && Step(st, st')
    ensures Plain(st'.table)
  {
    hide HandleEvent, MonitorRecursive, MonitorDirectory, UnmonitorRecursive, UnmonitorDirectory;
    if st' == st.(kernel := st'.kernel) {
    } else if adir, below :| st' == MonitorRequest(st, adir, below) {
      MonitorDirectoryPlain(st, adir.location, adir, adir.location, true);
      MonitorRecursivePlain(st, adir.location, adir, adir.location, true, below);
    } else if adir, below :| st' == UnmonitorRequest(st, adir, below) {
      UnmonitorRequestPlain(st, adir, below);
    } else {
      var below, steps :| st' == HandleEvent(st, below, steps);
      HandleEventPlain(st, below, steps);
    }
  }

  lemma UnmonitorRequestPlain(st: State, adir: Adir, below: seq<Path>)
    requires Plain(st.table)
    ensures Plain(UnmonitorRequest(st, adir, below).table)
  {
    UnmonitorDirectoryPlain(st, adir.location, adir);
    UnmonitorEachPlain(UnmonitorDirectory(st, adir.location, adir), below, adir);
  }

  // ----- counting missing-path watches -----

  function MissingIn(ws: seq<Watch>): nat {
    if ws == [] then 0
    else MissingIn(ws[..|ws| - 1]) + (if ws[|ws| - 1].Missing() then 1 else 0)
  }

  lemma MissingAppend(ws: seq<Watch>, w: Watch)
    ensures MissingIn(ws + [w]) == MissingIn(ws) + (if w.Missing() then 1 else 0)
  {
    assert (ws + [w])[..|ws|] == ws;
  }

  lemma {:induction false} MissingUpdate(ws: seq<Watch>, i: nat, w: Watch)
    requires i < |ws|
    ensures MissingIn(ws[i := w]) + (if ws[i].Missing() then 1 else 0) == MissingIn(ws) + (if w.Missing() then 1 else 0)
    decreases |ws|
  {
    var n, u := |ws| - 1, ws[i := w];
    if i == n {
      assert u[..n] == ws[..n];
    } else {
      assert u[..n] == ws[..n][i := w];
      MissingUpdate(ws[..n], i, w);
    }
  }

  lemma MissingRemoved(ws: seq<Watch>, i: nat)
    requires i < |ws|
    ensures MissingIn(RemoveUnordered(ws, i)) + (if ws[i].Missing() then 1 else 0) == MissingIn(ws)
  {
    MissingUpdate(ws, i, ws[|ws| - 1]);
    MissingButLast(ws[i := ws[|ws| - 1]]);
    hide MissingIn;
  }

  lemma MissingButLast(ws: seq<Watch>)
    requires ws != []
    ensures MissingIn(ws) == MissingIn(ws[..|ws| - 1]) + (if ws[|ws| - 1].Missing() then 1 else 0)
  {
  }

  function MissingAt(t: Table, x: int): nat {
    if x in t then MissingIn(t[x].watches) else 0
  }

  /** The number of missing-path watches in the entries 1 to n other than wd. */
  function Missings(t: Table, wd: int, n: nat): nat {
    if n == 0 then 0 else Missings(t, wd, n - 1) + (if n == wd then 0 else MissingAt(t, n))
  }

  lemma {:induction false} MissingsSame(t: Table, t': Table, wd: int, n: nat)
    requires forall x :: 1 <= x <= n && x != wd ==> MissingAt(t, x) == MissingAt(t', x)
    ensures Missings(t, wd, n) == Missings(t', wd, n)
  {
    if n > 0 { MissingsSame(t, t', wd, n - 1); }
  }

  /** Only entry y differs. */
  lemma {:induction false} MissingsOne(t: Table, t': Table, wd: int, n: nat, y: int)
    requires 1 <= y <= n && y != wd
    requires forall x :: 1 <= x <= n && x != wd && x != y ==> MissingAt(t, x) == MissingAt(t', x)
    ensures Missings(t', wd, n) + MissingAt(t, y) == Missings(t, wd, n) + MissingAt(t', y)
  {
    if y == n { MissingsSame(t, t', wd, n - 1); } else { MissingsOne(t, t', wd, n - 1, y); }
  }

  /** Entries that are not there count nothing. */
  lemma {:induction false} MissingsMore(t: Table, wd: int, n: nat, m: nat)
    requires n <= m && forall x :: n < x <= m ==> MissingAt(t, x) == 0
    ensures Missings(t, wd, m) == Missings(t, wd, n)
    decreases m
  {
    if n < m { MissingsMore(t, wd, n, m - 1); }
  }

  // ----- the weight -----

  function Bound(k: Kernel): nat {
    if k.nextWd < 0 then 0 else k.nextWd
  }

  /** The length of wd's list and the number of missing-path watches in all other entries. */
  function Weight(st: State, wd: int): nat
    requires wd in st.table
  {
    |st.table[wd].watches| + Missings(st.table, wd, Bound(st.kernel))
  }

  lemma WeightCovers(st: State, wd: int)
    requires wd in st.table
    ensures |st.table[wd].watches| <= Weight(st, wd)
  {
  }

  lemma WeightOver(st: State, wd: int, n: nat)
    requires Inv(st) && wd in st.table && st.kernel.nextWd <= n
    ensures Weight(st, wd) == |st.table[wd].watches| + Missings(st.table, wd, n)
  {
    assert forall x :: x in st.table ==> EntryOk(st.kernel, x, st.table[x].watches);
    MissingsMore(st.table, wd, Bound(st.kernel), n);
  }

  /** Monitoring one directory adds at most one. */
  lemma MonitorWeight(st: State, p: Path, adir: Adir, norm: Path, startPoint: bool, missing: Option<PathArray>,
                      wd: int, r: State)
    requires Inv(st) && p in st.kernel.dirs && wd in st.table && (startPoint ==> missing.None?)
    requires r == MonitorExisting(st, p, adir, norm, startPoint, missing)
    ensures Weight(r, wd) <= Weight(st, wd) + 1
  {
    MonitorExistingInv(st, p, adir, norm, startPoint, missing);
    assert EntryOk(st.kernel, wd, st.table[wd].watches);
    MonitorExistingAt(st, p, adir, norm, startPoint, missing, wd);
    var n := Bound(r.kernel);
    WeightOver(st, wd, n);
    var own := WatchOf(r.kernel, p);
    forall x | 1 <= x <= n && x != own ensures MissingAt(r.table, x) == MissingAt(st.table, x) {
      MonitorCount(st, p, adir, norm, startPoint, missing, r, x);
    }
    OwnCount(st, r, p, adir, norm, startPoint, missing);
    assert EntryOk(r.kernel, own, r.table[own].watches);
    if own == wd {
      MissingsSame(st.table, r.table, wd, n);
    } else {
      MissingsOne(st.table, r.table, wd, n, own);
    }
  }

  lemma MonitorCount(st: State, p: Path, adir: Adir, norm: Path, startPoint: bool, missing: Option<PathArray>,
                     r: State, x: int)
    requires Inv(st) && Inv(r) && p in st.kernel.dirs && r == MonitorExisting(st, p, adir, norm, startPoint, missing)
    requires 1 <= x && x != WatchOf(r.kernel, p)
    ensures MissingAt(r.table, x) == MissingAt(st.table, x)
  {
    MonitorExistingAt(st, p, adir, norm, startPoint, missing, x);
    MissingAppend(WatchesAt(st, x), MoveWatch(WatchOf(r.kernel, p)));
  }

  lemma OwnCount(st: State, r: State, p: Path, adir: Adir, norm: Path, startPoint: bool, missing: Option<PathArray>)
    requires OwnEffect(st, r, p, adir, norm, startPoint, missing)
    ensures var own := WatchOf(r.kernel, p);
            && own in r.table
            && MissingAt(r.table, own) <= MissingAt(st.table, own) + (if missing.Some? then 1 else 0)
            && |WatchesAt(r, own)| <= |WatchesAt(st, own)| + 1
  {
    MissingAppend(WatchesAt(st, WatchOf(r.kernel, p)), AutoscanWatch(st.nextId, startPoint, adir, norm, missing));
  }

  /** What dropping a watch of entry x from a list of two or more takes away. */
  lemma DropWeight(st: State, x: int, i: nat, wd: int, r: State)
    requires x in st.table && wd in st.table && 1 <= x < st.kernel.nextWd
    requires i < |st.table[x].watches| && 2 <= |st.table[x].watches|
    requires r == DropWatch(st, x, i) && (x == wd || st.table[x].watches[i].Missing())
    ensures wd in r.table && Weight(r, wd) == Weight(st, wd) - 1
  {
    var n := Bound(st.kernel);
    assert Bound(r.kernel) == n;
    if x == wd {
      MissingsSame(st.table, r.table, wd, n);
    } else {
      MissingRemoved(st.table[x].watches, i);
      MissingsOne(st.table, r.table, wd, n, x);
    }
  }

  /** One recheck adds nothing, unless it was the entry's only watch. */
  lemma RecheckOneWeight(st: State, x: int, i: nat, wd: int, r: State)
    requires Inv(st) && x in st.table && wd in st.table && i < |st.table[x].watches| && r == RecheckOne(st, x, i)
    ensures wd in r.table
    ensures Weight(r, wd) <= Weight(st, wd) + (if |st.table[x].watches| == 1 then 1 else 0)
  {
    var ws := st.table[x].watches;
    var w := ws[i];
    assert EntryOk(st.kernel, x, ws);
    if w.Missing() {
      hide Agree;
      var j, s, p, missing := RecheckOneIs(st, x, i, r);
      hide RecheckOne, MonitorExisting;
      if |ws| >= 2 { DropWeight(st, x, j, wd, s); }
      hide Weight;
      MonitorWeight(s, p, w.adir, w.normPath, missing.None?, missing, wd, r);
    }
  }

  lemma RecheckOneInv(st: State, x: int, i: nat, r: State)
    requires Inv(st) && x in st.table && i < |st.table[x].watches| && r == RecheckOne(st, x, i)
    ensures Inv(r)
  {
    RootExists(st);
    hide Inv;
    RecheckFromInv(st, x, i, i + 1);
    hide RecheckOne;
    assert RecheckFrom(r, x, i + 1, i + 1) == r;
  }

  lemma {:induction false} RecheckFromWeight(st: State, x: int, i: nat, n: nat, wd: int)
    requires Inv(st) && x in st.table && wd in st.table && (1 <= i || 2 <= |st.table[x].watches|)
    ensures Weight(RecheckFrom(st, x, i, n), wd) <= Weight(st, wd)
    decreases n - i
  {
    hide RecheckOne, Weight;
    if i < n && i < |st.table[x].watches| {
      var r := RecheckOne(st, x, i);
      RecheckOneWeight(st, x, i, wd, r);
      RecheckOneInv(st, x, i, r);
      hide Inv;
      RecheckFromWeight(r, x, i + 1, n, wd);
    }
  }

  /** A dead entry's list is left as it is by monitoring. */
  lemma DeadListStays(st: State, p: Path, adir: Adir, norm: Path, startPoint: bool, missing: Option<PathArray>, x: int)
    requires st.kernel.WellFormed() && p in st.kernel.dirs
    requires x in st.table && 1 <= x < st.kernel.nextWd && !st.kernel.Live(x)
    ensures var r := MonitorExisting(st, p, adir, norm, startPoint, missing);
            && r.table[x].watches == st.table[x].watches && r.kernel.WellFormed()
            && x < r.kernel.nextWd && !r.kernel.Live(x)
  {
    MonitorExistingAt(st, p, adir, norm, startPoint, missing, x);
    DeadStaysDead(st.kernel, MonitorExisting(st, p, adir, norm, startPoint, missing).kernel, x, p);
  }

  /** Rechecking an entry's only watch leaves it in the entry. */
  lemma SoleWatchStays(st: State, x: int, r: State)
    requires Inv(st) && x in st.table && |st.table[x].watches| == 1 && r == RecheckNonexistingMonitors(st, x)
    ensures r == RecheckOne(st, x, 0) && r.table[x].watches == st.table[x].watches
  {
    var ws := st.table[x].watches;
    var w := ws[0];
    var r0 := RecheckOne(st, x, 0);
    assert RecheckFrom(r0, x, 1, 1) == r0;
    if w.Missing() {
      hide Agree;
      var j, s, p, missing := RecheckOneIs(st, x, 0, r0);
      DropKeeps(st, x, j, s, x);
      hide RecheckOne, MonitorExisting, DropWatch, Kernel.WellFormed, Kernel.Live;
      DeadListStays(s, p, w.adir, w.normPath, missing.None?, missing, x);
    }
  }

  lemma NonexistingWeight(st: State, p: Path, adir: Adir, norm: Path, wd: int)
    requires Inv(st) && wd in st.table
    ensures Weight(MonitorNonexisting(st, p, adir, norm), wd) <= Weight(st, wd) + 1
  {
    hide MonitorExisting;
    var s := st.(nextId := st.nextId + 1);
    var arr := PathArray(st.nextId, p);
    var n := Deepest(s.kernel.dirs, p);
    var missing := if n == |p| then None else Some(arr);
    var r := MonitorExisting(s, p[..n], adir, norm, n == |p|, missing);
    MonitorWeight(s, p[..n], adir, norm, n == |p|, missing, wd, r);
  }

  /** Giving up a moved descriptor adds at most one. */
  lemma GiveUpWeight(st: State, removeWd: int, wd: int)
    requires Inv(st) && Plain(st.table) && wd in st.table
    ensures Weight(GiveUpMoved(st, removeWd), wd) <= Weight(st, wd) + 1
  {
    if removeWd in st.table {
      var ws := st.table[removeWd].watches;
      var s := RecheckNonexistingMonitors(st, removeWd);
      assert EntryOk(st.kernel, removeWd, ws);
      RecheckFromInv(st, removeWd, 0, |ws|);
      if |ws| >= 2 {
        RecheckFromWeight(st, removeWd, 0, |ws|, wd);
      } else {
        SoleWatchStays(st, removeWd, s);
        RecheckOneWeight(st, removeWd, 0, wd, s);
      }
      GaveUpWeight(st, removeWd, wd, s);
    }
  }

  /** The second half: the start point, if there is one, is monitored again. */
  lemma GaveUpWeight(st: State, removeWd: int, wd: int, s: State)
    requires removeWd in st.table && [] in st.kernel.dirs && wd in st.table && wd in s.table
    requires s == RecheckNonexistingMonitors(st, removeWd) && Inv(s) && PlainList(st.table[removeWd].watches)
    requires var ws := st.table[removeWd].watches;
             || Weight(s, wd) <= Weight(st, wd)
             || (|ws| == 1 && s.table[removeWd].watches == ws && ws[0].Missing()
                 && Weight(s, wd) <= Weight(st, wd) + 1)
    ensures Weight(GiveUpMoved(st, removeWd), wd) <= Weight(st, wd) + 1
  {
    hide RecheckNonexistingMonitors, MonitorNonexisting;
    RemoveWatchInv(s, removeWd);
    var s1 := s.(kernel := s.kernel.RemoveWatch(removeWd));
    var e := s1.table[removeWd];
    var i := FirstIndex(e.watches, AnyStartPoint);
    if i < |e.watches| && e.watches[i].adir.persistent {
      assert Matches(AnyStartPoint, e.watches[i]);
      NonexistingWeight(s1, e.path, e.watches[i].adir, e.watches[i].normPath, wd);
    }
  }

  /** A dead entry's list does not change when a descriptor is given up, unless it is that one. */
  lemma {:induction false} RecheckFromDeadList(st: State, x: int, i: nat, n: nat, wd: int)
    requires Inv(st) && x in st.table && wd in st.table && x != wd && !st.kernel.Live(wd)
    ensures var r := RecheckFrom(st, x, i, n);
            r.table[wd].watches == st.table[wd].watches && !r.kernel.Live(wd)
    decreases n - i
  {
    hide RecheckOne;
    if i < n && i < |st.table[x].watches| {
      RecheckOneDeadList(st, x, i, wd);
      RecheckFromInv(st, x, i, i + 1);
      assert RecheckFrom(st, x, i, i + 1) == RecheckOne(st, x, i);
      RecheckFromDeadList(RecheckOne(st, x, i), x, i + 1, n, wd);
    }
  }

  lemma RecheckOneDeadList(st: State, x: int, i: nat, wd: int)
    requires Inv(st) && x in st.table && wd in st.table && x != wd && i < |st.table[x].watches| && !st.kernel.Live(wd)
    ensures var r := RecheckOne(st, x, i);
            r.table[wd].watches == st.table[wd].watches && !r.kernel.Live(wd)
  {
    var w := st.table[x].watches[i];
    if w.Missing() {
      hide Agree;
      var j, s, p, missing := RecheckOneIs(st, x, i, RecheckOne(st, x, i));
      DropKeeps(st, x, j, s, wd);
      hide RecheckOne, MonitorExisting, DropWatch, Kernel.WellFormed, Kernel.Live;
      DeadListStays(s, p, w.adir, w.normPath, missing.None?, missing, wd);
    }
  }

  /** The entry's only watch was a move watch: its descriptor goes, and the list stays as long as it is. */
  lemma SoleMoveStays(st: State, removeWd: int, wd: int, r: State)
    requires Inv(st) && wd in st.table && !st.kernel.Live(wd) && r == GiveUpMoved(st, removeWd)
    requires |st.table[wd].watches| == 1 && st.table[wd].watches[0].MoveWatch?
    ensures r.table[wd].watches == st.table[wd].watches
  {
    if removeWd in st.table {
      var n := |st.table[removeWd].watches|;
      var s := RecheckNonexistingMonitors(st, removeWd);
      if removeWd == wd {
        assert RecheckFrom(st, wd, 1, 1) == st;
      } else {
        RecheckFromDeadList(st, removeWd, 0, n, wd);
      }
      RecheckFromInv(st, removeWd, 0, n);
      GaveUpDeadList(s, removeWd, wd, st);
    }
  }

  lemma GaveUpDeadList(s: State, removeWd: int, wd: int, st: State)
    requires removeWd in st.table && wd in s.table && [] in st.kernel.dirs
    requires s == RecheckNonexistingMonitors(st, removeWd) && Inv(s) && !s.kernel.Live(wd)
    ensures GiveUpMoved(st, removeWd).table[wd].watches == s.table[wd].watches
  {
    hide RecheckNonexistingMonitors, MonitorNonexisting;
    RemoveWatchInv(s, removeWd);
    RemoveWatchKeeps(s.kernel, removeWd);
    var s1 := s.(kernel := s.kernel.RemoveWatch(removeWd));
    var e := s1.table[removeWd];
    var i := FirstIndex(e.watches, AnyStartPoint);
    if i < |e.watches| && e.watches[i].adir.persistent {
      NonexistingDeadList(s1, e.path, e.watches[i].adir, e.watches[i].normPath, wd);
    }
  }

  lemma NonexistingDeadList(st: State, p: Path, adir: Adir, norm: Path, wd: int)
    requires Inv(st) && wd in st.table && !st.kernel.Live(wd)
    ensures MonitorNonexisting(st, p, adir, norm).table[wd].watches == st.table[wd].watches
  {
    hide MonitorExisting;
    assert EntryOk(st.kernel, wd, st.table[wd].watches);
    var s := st.(nextId := st.nextId + 1);
    var n := Deepest(s.kernel.dirs, p);
    var missing := if n == |p| then None else Some(PathArray(st.nextId, p));
    DeadListStays(s, p[..n], adir, norm, n == |p|, missing, wd);
  }

  /** One iteration: either the index has passed the end of the list, or the weight has not grown. */
  lemma CheckMoveWeight(st: State, wd: int, i: nat, r: State)
    requires Inv(st) && Plain(st.table) && wd in st.table && i < |st.table[wd].watches| && r == CheckMoveAt(st, wd, i)
    ensures |r.table[wd].watches| <= i + 1 || Weight(r, wd) <= Weight(st, wd)
  {
    var ws := st.table[wd].watches;
    if ws[i].MoveWatch? {
      var s := DropWatch(st, wd, i);
      assert EntryOk(st.kernel, wd, ws);
      DropWatchInv(st, wd, i);
      DropWatchPlain(st, wd, i);
      if |ws| == 1 {
        RemoveWatchKeeps(st.kernel, wd);
        SoleMoveStays(s, ws[i].removeWd, wd, r);
      } else {
        DropWeight(st, wd, i, wd, s);
        GiveUpWeight(s, ws[i].removeWd, wd);
      }
    }
  }

  lemma CheckMoveBelow(s: State, wd: int, i: nat, r: State, bound: nat)
    requires Inv(s) && Plain(s.table) && wd in s.table && r == CheckMoveAt(s, wd, i)
    requires |s.table[wd].watches| <= i || Weight(s, wd) <= bound
    ensures |r.table[wd].watches| <= i + 1 || Weight(r, wd) <= bound
  {
    if i < |s.table[wd].watches| {
      hide CheckMoveAt, Weight;
      CheckMoveWeight(s, wd, i, r);
    }
  }

  /** After n iterations the index has passed the end, or the weight is at most the first one. */
  lemma {:induction false} CheckMovesWeight(st: State, wd: int, n: nat, r: State)
    requires Inv(st) && Plain(st.table) && wd in st.table && r == CheckMoves(st, wd, n)
    ensures |r.table[wd].watches| <= n || Weight(r, wd) <= Weight(st, wd)
  {
    hide CheckMoveAt, Weight, Inv, Plain;
    if n > 0 {
      RootExists(st);
      var s := CheckMoves(st, wd, n - 1);
      CheckMovesWeight(st, wd, n - 1, s);
      CheckMovesInv(st, wd, n - 1, s);
      CheckMovesPlain(st, wd, n - 1);
      CheckMoveBelow(s, wd, n - 1, r, Weight(st, wd));
    }
  }

  /** checkMoveWatches ends, in every state of every run: after as many iterations as wd has watches and
      the other entries have missing-path watches, the index has passed the end of the list. */
  lemma CheckMovesEnds(run: seq<State>, m: nat, wd: int, n: nat)
    requires Behaviour(run) && m < |run| && wd in run[m].table && Weight(run[m], wd) <= n
    ensures [] in run[m].kernel.dirs && |CheckMoves(run[m], wd, n).table[wd].watches| <= n
  {
    RunsKeepInv(run, m);
    RunsKeepPlain(run, m);
    CheckMovesWeight(run[m], wd, n, CheckMoves(run[m], wd, n));
  }
}
