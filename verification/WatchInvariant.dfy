/**
 What every step of the watch protocol keeps: the table agrees with the kernel, no
 entry is empty, a location has at most one regular watch per entry, and the
 parentWd links are acyclic.
 */
module WatchInvariant {
  import opened Wrappers
  import opened InotifyKernel
  import opened WatchTable
  import opened WatchSweep

  /** A table entry is live in the kernel or its IN_IGNORED is still queued; it is well formed. */
  ghost predicate EntryOk(k: Kernel, wd: int, ws: seq<Watch>) {
    && 1 <= wd < k.nextWd
    && (k.Live(wd) || IgnoredEvent(wd) in k.queue)
    && ws != []
    && OneRegular(ws)
  }

  ghost predicate EntriesOk(k: Kernel, t: Table, exempt: set<int>) {
    forall wd :: wd in t && wd !in exempt ==> EntryOk(k, wd, t[wd].watches)
  }

  ghost predicate Ranked(t: Table, rank: int -> nat) {
    forall x :: x in t && 0 <= t[x].parentWd && t[x].parentWd in t ==> rank(t[x].parentWd) < rank(x)
  }

  /** No cycle can be followed along parentWd: some numbering falls along every link. */
  ghost predicate Acyclic(t: Table) {
    exists rank: int -> nat :: Ranked(t, rank)
  }

  ghost predicate Agree(k: Kernel, t: Table) {
    && k.WellFormed()
    && EntriesOk(k, t, {})
    && Acyclic(t)
  }

  ghost predicate Inv(st: State) {
    Agree(st.kernel, st.table)
  }

  /** Nothing announced is lost and nothing dies unannounced. */
  ghost predicate KernelGrows(k: Kernel, k': Kernel) {
    && k.nextWd <= k'.nextWd
    && (forall ev :: ev in k.queue ==> ev in k'.queue)
    && (forall wd :: k.Live(wd) ==> k'.Live(wd) || IgnoredEvent(wd) in k'.queue)
  }

  lemma AddWatchGrows(k: Kernel, p: Path)
    requires k.WellFormed()
    ensures k.AddWatch(p).0.WellFormed() && KernelGrows(k, k.AddWatch(p).0)
  {
    AddWatchKeeps(k, p);
  }

  lemma RemoveWatchGrows(k: Kernel, wd: int)
    requires k.WellFormed()
    ensures k.RemoveWatch(wd).WellFormed() && KernelGrows(k, k.RemoveWatch(wd))
  {
    RemoveWatchKeeps(k, wd);
  }

  // ----- parentWd links -----

  ghost predicate SameParents(t: Table, t': Table) {
    t'.Keys <= t.Keys && forall x :: x in t' ==> t'[x].parentWd == t[x].parentWd
  }

  lemma SameParentsAcyclic(t: Table, t': Table)
    requires Acyclic(t) && SameParents(t, t')
    ensures Acyclic(t')
  {
    var rank: int -> nat :| Ranked(t, rank);
    assert Ranked(t', rank);
  }

  /** The chain already rewritten: closed upwards, and numbered below everything else. */
  ghost predicate Front(t: Table, rank: int -> nat, lo: nat, front: set<int>) {
    && Ranked(t, rank)
    && (forall x :: x in front ==> x in t && rank(x) < lo && (t[x].parentWd < 0 || t[x].parentWd in front))
    && (forall x :: x in t && x !in front ==> lo <= rank(x))
  }

  /** Linking x to the front of the chain cannot close a cycle, whatever stale links exist. */
  lemma Reparent(t: Table, rank: int -> nat, lo: nat, front: set<int>, x: int, e: Wd)
    returns (rank': int -> nat)
    requires Front(t, rank, lo, front) && x !in front
    requires e.parentWd < 0 || e.parentWd in front
    ensures Front(t[x := e], rank', lo + 1, front + {x})
  {
    rank' := y => if y in front then rank(y) else if y == x then lo else rank(y) + 1;
    var t' := t[x := e];
    forall y | y in t' && 0 <= t'[y].parentWd && t'[y].parentWd in t'
      ensures rank'(t'[y].parentWd) < rank'(y)
    {
      if y != x && y !in front {
        assert lo <= rank(y);
        var p := t[y].parentWd;
        if p in t { assert rank(p) < rank(y); }
      }
    }
  }

  /** Rewriting an entry that already points into the front keeps the front as it is. */
  lemma RewriteInside(t: Table, rank: int -> nat, lo: nat, front: set<int>, x: int, e: Wd)
    requires Front(t, rank, lo, front) && x in t && e.parentWd == t[x].parentWd
    ensures Front(t[x := e], rank, lo, front)
  {
  }

  /** The members of the front watch proper ancestors of p above depth n. */
  ghost predicate Above(k: Kernel, p: Path, n: nat, front: set<int>)
    requires n <= |p|
  {
    forall x :: x in front ==> exists j :: 0 <= j < n && p[..j] in k.dirs && WatchOf(k, p[..j]) == x && 1 <= x
  }

  lemma NotAbove(k: Kernel, p: Path, n: nat, front: set<int>, m: nat)
    requires k.WellFormed() && n <= m <= |p| && Above(k, p, n, front)
    requires p[..m] in k.dirs && WatchOf(k, p[..m]) >= 1
    ensures WatchOf(k, p[..m]) !in front
  {
  }

  lemma {:induction false} PrefixesExist(k: Kernel, p: Path, i: nat)
    requires k.WellFormed() && p in k.dirs && i <= |p|
    ensures p[..i] in k.dirs
    decreases |p| - i
  {
    if i == |p| {
      assert p[..i] == p;
    } else {
      PrefixesExist(k, p, i + 1);
      assert Parent(p[..i + 1]) == p[..i];
    }
  }

  // ----- the operations -----

  /** The state of a start-point walk: everything but the next link is settled. */
  ghost predicate Walking(st: State, p: Path, i: nat, parentWd: int, rank: int -> nat, lo: nat, front: set<int>)
    requires i <= |p|
  {
    && st.kernel.WellFormed() && p in st.kernel.dirs
    && EntriesOk(st.kernel, st.table, {})
    && Front(st.table, rank, lo, front) && Above(st.kernel, p, i, front)
    && (parentWd < 0 || parentWd in front)
  }

  lemma AddMoveWatchWalks(st: State, p: Path, wd: int, i: nat, parentWd: int, rank: int -> nat, lo: nat,
                          front: set<int>)
    returns (rank': int -> nat)
    requires i < |p| && Walking(st, p, i, parentWd, rank, lo, front)
    ensures var (s, c) := AddMoveWatch(st, p[..i], wd, parentWd);
            Walking(s, p, i + 1, c, rank', lo + 1, front + {c})
  {
    PrefixesExist(st.kernel, p, i);
    AddWatchKeeps(st.kernel, p[..i]);
    var (k, c) := st.kernel.AddWatch(p[..i]);
    NotAbove(k, p, i, front, i);
    var (s, _) := AddMoveWatch(st, p[..i], wd, parentWd);
    forall x | x in s.table ensures EntryOk(s.kernel, x, s.table[x].watches) {
      if x != c {
        assert EntryOk(k, x, st.table[x].watches);
      } else if c in st.table {
        assert EntryOk(k, c, st.table[c].watches);
      }
    }
    rank' := Reparent(st.table, rank, lo, front, c, s.table[c]);
    forall x | x in front + {c}
      ensures exists j :: 0 <= j < i + 1 && p[..j] in s.kernel.dirs && WatchOf(s.kernel, p[..j]) == x && 1 <= x
    {
      if x in front {
        var j :| 0 <= j < i && p[..j] in k.dirs && WatchOf(k, p[..j]) == x && 1 <= x;
        assert j < i + 1;
      } else {
        assert WatchOf(k, p[..i]) == x;
      }
    }
  }

  /** watchPathForMoves rewrites the whole chain, root first, over exactly the proper ancestors. */
  lemma {:induction false} WatchPathWalks(st: State, p: Path, wd: int, i: nat, parentWd: int,
                                          rank: int -> nat, lo: nat, front: set<int>)
    returns (rank': int -> nat, lo': nat, front': set<int>)
    requires i <= |p| && Walking(st, p, i, parentWd, rank, lo, front)
    ensures var (s, c) := WatchPathForMoves(st, p, wd, i, parentWd);
            Walking(s, p, |p|, c, rank', lo', front')
    decreases |p| - i
  {
    if i == |p| {
      rank', lo', front' := rank, lo, front;
    } else {
      var rank1 := AddMoveWatchWalks(st, p, wd, i, parentWd, rank, lo, front);
      var (s, c) := AddMoveWatch(st, p[..i], wd, parentWd);
      rank', lo', front' := WatchPathWalks(s, p, wd, i + 1, c, rank1, lo + 1, front + {c});
    }
  }

  lemma WatchAboveWalks(st: State, p: Path, wd: int, startPoint: bool)
    returns (rank: int -> nat, lo: nat, front: set<int>)
    requires Inv(st) && p in st.kernel.dirs
    ensures var (s, c) := WatchAbove(st, p, wd, startPoint);
            Walking(s, p, |p|, c, rank, lo, front)
  {
    rank :| Ranked(st.table, rank);
    lo, front := 0, {};
    if startPoint {
      rank, lo, front := WatchPathWalks(st, p, wd, 0, INOTIFY_ROOT, rank, lo, front);
    }
  }

  lemma {:induction false} WatchPathKeepsWatch(st: State, p: Path, wd: int, i: nat, parentWd: int, q: Path)
    requires i <= |p| && st.kernel.WellFormed() && q in st.kernel.dirs && WatchOf(st.kernel, q) >= 1
    ensures var s := WatchPathForMoves(st, p, wd, i, parentWd).0;
            s.kernel.WellFormed() && WatchOf(s.kernel, q) == WatchOf(st.kernel, q)
            && s.kernel.queue == st.kernel.queue && s.nextId == st.nextId && s.descendants == st.descendants
    decreases |p| - i
  {
    if i < |p| {
      AddWatchKeeps(st.kernel, p[..i]);
      var (s, c) := AddMoveWatch(st, p[..i], wd, parentWd);
      assert s.kernel == st.kernel.AddWatch(p[..i]).0;
      WatchPathKeepsWatch(s, p, wd, i + 1, c, q);
    }
  }

  lemma AddWatchInv(st: State, p: Path)
    requires Inv(st)
    ensures Inv(st.(kernel := st.kernel.AddWatch(p).0))
  {
    AddWatchGrows(st.kernel, p);
  }

  lemma RemoveWatchInv(st: State, wd: int)
    requires Inv(st)
    ensures Inv(st.(kernel := st.kernel.RemoveWatch(wd)))
  {
    RemoveWatchGrows(st.kernel, wd);
  }

  /** Putting back a settled entry for the watched directory p. */
  lemma SettleEntry(s: State, p: Path, had: bool, wd: int, parentWd: int, e: Wd,
                    rank: int -> nat, lo: nat, front: set<int>)
    requires Walking(s, p, |p|, parentWd, rank, lo, front)
    requires wd == WatchOf(s.kernel, p) >= 1 && (had ==> wd in s.table)
    requires e.parentWd == EntryFor(s.table, had, p, wd, parentWd).parentWd
    requires e.watches != [] && OneRegular(e.watches)
    ensures Inv(s.(table := s.table[wd := e]))
  {
    assert p[..|p|] == p;
    NotAbove(s.kernel, p, |p|, front, |p|);
    var t := s.table[wd := e];
    assert s.kernel.Live(wd);
    assert EntriesOk(s.kernel, t, {});
    if e.parentWd < 0 || e.parentWd in front {
      var rank' := Reparent(s.table, rank, lo, front, wd, e);
    } else {
      RewriteInside(s.table, rank, lo, front, wd, e);
    }
    assert Acyclic(t);
  }

  lemma MonitorExistingInv(st: State, p: Path, adir: Adir, norm: Path, startPoint: bool, missing: Option<PathArray>)
    requires Inv(st) && p in st.kernel.dirs
    ensures Inv(MonitorExisting(st, p, adir, norm, startPoint, missing))
  {
    var (k, wd) := st.kernel.AddWatch(p);
    AddWatchKeeps(st.kernel, p);
    AddWatchInv(st, p);
    var s0 := st.(kernel := k);
    var rank, lo, front := WatchAboveWalks(s0, p, wd, startPoint);
    var (s, parentWd) := WatchAbove(s0, p, wd, startPoint);
    assert WatchOf(s.kernel, p) == wd by {
      if startPoint { WatchPathKeepsWatch(s0, p, wd, 0, INOTIFY_ROOT, p); }
    }
    InstallInv(s, p, adir, norm, startPoint, missing, wd in st.table, wd, parentWd, rank, lo, front);
  }

  /** The second half of monitorDirectory, from the state the upward walk left. */
  lemma InstallInv(s: State, p: Path, adir: Adir, norm: Path, startPoint: bool, missing: Option<PathArray>,
                   had: bool, wd: int, parentWd: int, rank: int -> nat, lo: nat, front: set<int>)
    requires Walking(s, p, |p|, parentWd, rank, lo, front)
    requires wd == WatchOf(s.kernel, p) >= 1 && (had ==> wd in s.table)
    ensures Inv(Install(s, p, adir, norm, startPoint, missing, had, wd, parentWd))
  {
    var e := EntryFor(s.table, had, p, wd, parentWd);
    assert had ==> EntryOk(s.kernel, wd, s.table[wd].watches);
    if had && missing.None? && FirstIndex(e.watches, RegularFor(adir.location)) < |e.watches| {
      SettleEntry(s, p, had, wd, parentWd, e, rank, lo, front);
    } else {
      var e1 := AppendWatch(e, AutoscanWatch(s.nextId, startPoint, adir, norm, missing));
      SettleEntry(s, p, had, wd, parentWd, e1, rank, lo, front);
      var s1 := s.(table := s.table[wd := e1], nextId := s.nextId + 1);
      AddWatchInv(s1, norm);
    }
  }

  lemma DropWatchInv(st: State, wd: int, i: nat)
    requires Inv(st) && wd in st.table && i < |st.table[wd].watches|
    ensures Inv(DropWatch(st, wd, i))
  {
    var ws := st.table[wd].watches;
    assert EntryOk(st.kernel, wd, ws);
    if |ws| == 1 {
      RemoveWatchInv(st, wd);
    } else {
      SameParentsAcyclic(st.table, DropWatch(st, wd, i).table);
    }
  }

  lemma RecheckNonexistingMonitorInv(st: State, curWd: int, arr: PathArray, adir: Adir, norm: Path)
    requires Inv(st) && (curWd != -1 ==> curWd in st.table)
    ensures Inv(RecheckNonexistingMonitor(st, curWd, arr, adir, norm))
  {
    var s := if curWd != -1 then RemoveNonexistingMonitor(st, curWd, arr.id) else st;
    if curWd != -1 {
      var i := FirstIndex(st.table[curWd].watches, MissingWith(arr.id));
      if i < |st.table[curWd].watches| { DropWatchInv(st, curWd, i); }
    }
    var n := Deepest(st.kernel.dirs, arr.comps);
    if n == |arr.comps| {
      MonitorExistingInv(s, arr.comps[..n], adir, norm, true, None);
    } else {
      MonitorExistingInv(s, arr.comps[..n], adir, norm, false, Some(arr));
    }
  }

  lemma RootExists(st: State)
    requires Inv(st)
    ensures [] in st.kernel.dirs
  {
  }

  lemma MonitorNonexistingInv(st: State, p: Path, adir: Adir, norm: Path)
    requires Inv(st)
    ensures Inv(MonitorNonexisting(st, p, adir, norm))
  {
    hide Agree;
    RootExists(st);
    RecheckNonexistingMonitorInv(st.(nextId := st.nextId + 1), -1, PathArray(st.nextId, p), adir, norm);
  }

  lemma MonitorDirectoryInv(st: State, p: Path, adir: Adir, norm: Path, startPoint: bool, missing: Option<PathArray>)
    requires Inv(st)
    ensures Inv(MonitorDirectory(st, p, adir, norm, startPoint, missing))
  {
    hide Agree;
    RootExists(st);
    if p in st.kernel.dirs {
      MonitorExistingInv(st, p, adir, norm, startPoint, missing);
    } else if startPoint && adir.persistent {
      MonitorNonexistingInv(st, p, adir, norm);
    }
  }

  lemma {:induction false} RecheckFromInv(st: State, wd: int, i: nat, n: nat)
    requires Inv(st) && wd in st.table
    ensures Inv(RecheckFrom(st, wd, i, n))
    decreases n - i
  {
    hide Agree;
    RootExists(st);
    if i < n && i < |st.table[wd].watches| {
      var w := st.table[wd].watches[i];
      if w.Missing() {
        RecheckNonexistingMonitorInv(st, wd, w.nonexisting.value, w.adir, w.normPath);
      }
      RecheckFromInv(RecheckOne(st, wd, i), wd, i + 1, n);
    }
  }

  lemma GiveUpMovedInv(st: State, removeWd: int)
    requires Inv(st)
    ensures Inv(GiveUpMoved(st, removeWd))
  {
    hide Agree;
    RootExists(st);
    if removeWd in st.table {
      RecheckFromInv(st, removeWd, 0, |st.table[removeWd].watches|);
      var s := RecheckNonexistingMonitors(st, removeWd);
      RemoveWatchInv(s, removeWd);
      var s1 := s.(kernel := s.kernel.RemoveWatch(removeWd));
      var e := s1.table[removeWd];
      var i := FirstIndex(e.watches, AnyStartPoint);
      if i < |e.watches| && e.watches[i].adir.persistent {
        MonitorNonexistingInv(s1, e.path, e.watches[i].adir, e.watches[i].normPath);
      }
    }
  }

  lemma CheckMoveAtInv(st: State, wd: int, i: nat, r: State)
    requires Inv(st) && wd in st.table && r == CheckMoveAt(st, wd, i)
    ensures Inv(r)
  {
    hide Agree;
    RootExists(st);
    var ws := st.table[wd].watches;
    if i < |ws| && ws[i].MoveWatch? {
      DropWatchInv(st, wd, i);
      GiveUpMovedInv(DropWatch(st, wd, i), ws[i].removeWd);
    }
  }

  lemma {:induction false} CheckMovesInv(st: State, wd: int, steps: nat, r: State)
    requires Inv(st) && wd in st.table && r == CheckMoves(st, wd, steps)
    ensures Inv(r)
  {
    hide CheckMoveAt, Agree;
    RootExists(st);
    if steps > 0 {
      var s := CheckMoves(st, wd, steps - 1);
      CheckMovesInv(st, wd, steps - 1, s);
      CheckMoveAtInv(s, wd, steps - 1, r);
    }
  }

  /** The invariant while an IN_IGNORED for `gone` is being handled. */
  ghost predicate InvBut(st: State, gone: int) {
    && st.kernel.WellFormed()
    && EntriesOk(st.kernel, st.table, {gone})
    && Acyclic(st.table)
  }

  lemma SweepEntryInv(st: State, x: int, wd: int)
    requires InvBut(st, wd) && x in st.table && x != wd
    ensures InvBut(SweepEntry(st, x, wd), wd)
  {
    var ws := st.table[x].watches;
    assert EntryOk(st.kernel, x, ws);
    if ws == [MoveWatch(wd)] {
      RemoveWatchGrows(st.kernel, x);
    } else {
      SweepNeverEmpties(ws, MoveWatch(wd));
      SweepRegular(ws, MoveWatch(wd), 0);
      SameParentsAcyclic(st.table, SweepEntry(st, x, wd).table);
    }
  }

  lemma {:induction false} SweepAllInv(st: State, xs: seq<int>, wd: int)
    requires InvBut(st, wd) && (forall x :: x in xs ==> x in st.table && x != wd)
    ensures InvBut(SweepAll(st, xs, wd), wd)
    decreases |xs|
  {
    if xs != [] {
      SweepEntryInv(st, xs[0], wd);
      SweepAllInv(SweepEntry(st, xs[0], wd), xs[1..], wd);
    }
  }

  lemma ForgetInv(st: State, wd: int)
    requires InvBut(st, wd)
    ensures Inv(Forget(st, wd))
  {
    SweepAllInv(st, Ancestors(st.table, wd), wd);
    var s := RemoveWatchMoves(st, wd);
    var r := RemoveDescendants(s, wd);
    if wd in s.table {
      var ds := DescendantsOf(s.table[wd].watches, s.descendants);
      RemoveWatchesKeeps(s.kernel, ds);
      assert KernelGrows(s.kernel, r.kernel);
    }
    SameParentsAcyclic(s.table, s.table - {wd});
  }

  lemma UnmonitorDirectoryInv(st: State, p: Path, adir: Adir)
    requires Inv(st)
    ensures Inv(UnmonitorDirectory(st, p, adir))
  {
    AddWatchInv(st, p);
    var (k, wd) := st.kernel.AddWatch(p);
    if wd in st.table {
      var i := FirstIndex(st.table[wd].watches, RegularFor(adir.location));
      if i < |st.table[wd].watches| { DropWatchInv(st.(kernel := k), wd, i); }
    }
  }

  lemma {:induction false} MonitorEachInv(st: State, ps: seq<Path>, adir: Adir, norm: Path)
    requires Inv(st)
    ensures Inv(MonitorEach(st, ps, adir, norm))
    decreases |ps|
  {
    hide Agree;
    RootExists(st);
    if ps != [] {
      MonitorDirectoryInv(st, ps[0], adir, norm, false, None);
      MonitorEachInv(MonitorDirectory(st, ps[0], adir, norm, false, None), ps[1..], adir, norm);
    }
  }

  lemma {:induction false} UnmonitorEachInv(st: State, ps: seq<Path>, adir: Adir)
    requires Inv(st)
    ensures Inv(UnmonitorEach(st, ps, adir))
    decreases |ps|
  {
    if ps != [] {
      UnmonitorDirectoryInv(st, ps[0], adir);
      UnmonitorEachInv(UnmonitorDirectory(st, ps[0], adir), ps[1..], adir);
    }
  }

  lemma MonitorRecursiveInv(st: State, p: Path, adir: Adir, norm: Path, startPoint: bool, below: seq<Path>)
    requires Inv(st)
    ensures Inv(MonitorRecursive(st, p, adir, norm, startPoint, below))
  {
    hide Agree;
    RootExists(st);
    MonitorDirectoryInv(st, p, adir, norm, startPoint, None);
    MonitorEachInv(MonitorDirectory(st, p, adir, norm, startPoint, None), below, adir, norm);
  }

  lemma HandleDirectoriesInv(st: State, ev: Event, found: Option<Watch>, path: Path, below: seq<Path>, steps: nat)
    requires Inv(st) && ev.wd in st.table && (found.Some? ==> found.value.Regular())
    ensures Inv(HandleDirectories(st, ev, found, path, below, steps))
  {
    hide Agree;
    RootExists(st);
    var s1 := if ev.kind.MoveSelf? then CheckMoves(st, ev.wd, steps) else st;
    if ev.kind.MoveSelf? { CheckMovesInv(st, ev.wd, steps, s1); }
    RecheckFromInv(s1, ev.wd, 0, |s1.table[ev.wd].watches|);
    var s2 := if SelfKind(ev.kind) then RecheckNonexistingMonitors(s1, ev.wd) else s1;
    RecheckFromInv(s2, ev.wd, 0, |s2.table[ev.wd].watches|);
    var s3 := if ev.isDir && (ev.kind.Create? || ev.kind.MovedTo?)
              then RecheckNonexistingMonitors(s2, ev.wd) else s2;
    if found.Some? {
      MonitorRecursiveInv(s3, path, found.value.adir, found.value.normPath, false, below);
    }
  }

  lemma HandleContentInv(st: State, ev: Event, found: Watch, path: Path, below: seq<Path>)
    requires Inv(st) && ev.wd in st.table && found.Regular()
    ensures Inv(HandleContent(st, ev, found, path, below))
  {
    hide Agree;
    RootExists(st);
    if SelfKind(ev.kind) {
      RemoveWatchInv(st, ev.wd);
      var s := st.(kernel := st.kernel.RemoveWatch(ev.wd));
      var ws := s.table[ev.wd].watches;
      var i := FirstIndex(ws, AnyStartPoint);
      if i < |ws| { MonitorNonexistingInv(s, path, ws[i].adir, ws[i].normPath); }
    } else {
      MonitorRecursiveInv(st, path, found.adir, found.normPath, false, below);
    }
  }

  /** Taking an event off the queue can only orphan the entry whose IN_IGNORED it was. */
  lemma DequeueInv(st: State)
    requires Inv(st) && st.kernel.queue != []
    ensures var s := Dequeued(st);
            var ev := st.kernel.queue[0];
            && s.kernel.WellFormed()
            && (if ev.kind.Ignored? then InvBut(s, ev.wd) else Inv(s))
            && (ev.wd !in s.table ==> Inv(s))
  {
    var q := st.kernel.queue;
    var s := Dequeued(st);
    forall wd | wd in s.table && (wd != q[0].wd || !q[0].kind.Ignored?)
      ensures EntryOk(s.kernel, wd, s.table[wd].watches)
    {
      assert EntryOk(st.kernel, wd, st.table[wd].watches);
      assert st.kernel.Live(wd) ==> s.kernel.Live(wd) by {
        if st.kernel.Live(wd) {
          var i :| i in st.kernel.wds && st.kernel.wds[i] == wd;
          assert i in s.kernel.wds && s.kernel.wds[i] == wd;
        }
      }
      assert q == [q[0]] + q[1..];
    }
  }

  lemma HandleEventInv(st: State, below: seq<Path>, steps: nat)
    requires Inv(st) && st.kernel.queue != []
    ensures Inv(HandleEvent(st, below, steps))
  {
    DequeueInv(st);
    var ev := st.kernel.queue[0];
    var s := Dequeued(st);
    if ev.wd !in s.table {
      RemoveWatchInv(s, ev.wd);
      assert HandleEvent(st, below, steps) == s.(kernel := s.kernel.RemoveWatch(ev.wd));
    } else if ev.kind.Ignored? {
      ForgetInv(s, ev.wd);
      IgnoredDispatch(s, ev, below, steps);
      assert HandleEvent(st, below, steps) == Forget(s, ev.wd);
    } else {
      DispatchInv(s, ev, below, steps);
      assert HandleEvent(st, below, steps) == Dispatch(s, ev, below, steps);
    }
  }

  /** An IN_IGNORED event matches none of the other branches. */
  lemma IgnoredDispatch(s: State, ev: Event, below: seq<Path>, steps: nat)
    requires ev.wd in s.table && [] in s.kernel.dirs && ev.kind.Ignored?
    ensures Dispatch(s, ev, below, steps) == s
  {
  }

  lemma DispatchInv(s: State, ev: Event, below: seq<Path>, steps: nat)
    requires Inv(s) && ev.wd in s.table
    ensures Inv(Dispatch(s, ev, below, steps))
  {
    var path := EventPath(s.table[ev.wd], ev);
    var found := BestMatch(s.table[ev.wd].watches, path);
    HandleDirectoriesInv(s, ev, found, path, below, steps);
    var s1 := HandleDirectories(s, ev, found, path, below, steps);
    if found.Some? { HandleContentInv(s1, ev, found.value, path, below); }
  }

  // ----- runs -----

  function MonitorRequest(st: State, adir: Adir, below: seq<Path>): (r: State)
    requires [] in st.kernel.dirs
    ensures st.table.Keys <= r.table.Keys && r.kernel.dirs == st.kernel.dirs
  {
    if adir.recursive then MonitorRecursive(st, adir.location, adir, adir.location, true, below)
    else MonitorDirectory(st, adir.location, adir, adir.location, true, None)
  }

  function UnmonitorRequest(st: State, adir: Adir, below: seq<Path>): (r: State)
    ensures st.table.Keys <= r.table.Keys && r.kernel.dirs == st.kernel.dirs
  {
    if adir.recursive then UnmonitorRecursive(st, adir.location, adir, below)
    else UnmonitorDirectory(st, adir.location, adir)
  }

  /** Any change of the tree, renames included, and any events: only the contract on removal is assumed. */
  ghost predicate EnvironmentStep(k: Kernel, k': Kernel) {
    k'.WellFormed() && KernelGrows(k, k')
  }

  ghost predicate Step(st: State, st': State) {
    [] in st.kernel.dirs &&
    (|| (st' == st.(kernel := st'.kernel) && EnvironmentStep(st.kernel, st'.kernel))
     || (exists adir, below :: st' == MonitorRequest(st, adir, below))
     || (exists adir, below :: st' == UnmonitorRequest(st, adir, below))
     || (st.kernel.queue != [] && exists below, steps :: st' == HandleEvent(st, below, steps)))
  }

  ghost predicate Initial(st: State) {
    st.kernel.WellFormed() && st.kernel.wds == map[] && st.kernel.queue == [] && st.table == map[]
  }

  ghost predicate Behaviour(run: seq<State>) {
    && run != [] && Initial(run[0])
    && forall i :: 0 <= i < |run| - 1 ==> Step(run[i], run[i + 1])
  }

  lemma StepInv(st: State, st': State)
    requires Inv(st) && Step(st, st')
    ensures Inv(st')
  {
    if st' == st.(kernel := st'.kernel) && EnvironmentStep(st.kernel, st'.kernel) {
    } else if adir, below :| st' == MonitorRequest(st, adir, below) {
      MonitorDirectoryInv(st, adir.location, adir, adir.location, true, None);
      MonitorRecursiveInv(st, adir.location, adir, adir.location, true, below);
    } else if adir, below :| st' == UnmonitorRequest(st, adir, below) {
      UnmonitorDirectoryInv(st, adir.location, adir);
      UnmonitorEachInv(UnmonitorDirectory(st, adir.location, adir), below, adir);
    } else {
      var below, steps :| st' == HandleEvent(st, below, steps);
      HandleEventInv(st, below, steps);
    }
  }

  /** Safety of every run: the invariant holds in every state. */
  lemma {:induction false} RunsKeepInv(run: seq<State>, n: nat)
    requires Behaviour(run) && n < |run|
    ensures Inv(run[n])
  {
    if n == 0 {
      var rank: int -> nat := x => 0;
      assert Ranked(run[0].table, rank);
    } else {
      RunsKeepInv(run, n - 1);
      assert Step(run[n - 1], run[n - 1 + 1]);
      StepInv(run[n - 1], run[n]);
    }
  }

  /** Table and kernel agree: a descriptor in the table is live or its IN_IGNORED is queued,
      so a drained queue leaves only live descriptors. */
  lemma TableMatchesKernel(run: seq<State>, n: nat, wd: int)
    requires Behaviour(run) && n < |run| && wd in run[n].table
    ensures run[n].kernel.Live(wd) || IgnoredEvent(wd) in run[n].kernel.queue
    ensures run[n].kernel.queue == [] ==> run[n].kernel.Live(wd)
    ensures run[n].table[wd].watches != [] && OneRegular(run[n].table[wd].watches)
  {
    RunsKeepInv(run, n);
    assert EntryOk(run[n].kernel, wd, run[n].table[wd].watches);
  }

  // ----- the upward walk -----

  lemma {:induction false} ChainCloses(t: Table, x: int, avail: set<int>, rank: int -> nat)
    requires Ranked(t, rank)
    requires 0 <= x && x in t ==> forall y :: y in t && rank(y) <= rank(x) ==> y in avail
    ensures var c := Chain(t, x, avail);
            && (0 <= x && x in t ==> x in c)
            && (forall y :: y in c && 0 <= t[y].parentWd && t[y].parentWd in t ==> t[y].parentWd in c)
            && (forall y :: y in c ==> rank(y) <= rank(x))
            && (forall i, j :: 0 <= i < j < |c| ==> c[i] != c[j])
    decreases |avail|
  {
    if 0 <= x && x in t {
      assert x in avail;
      var p := t[x].parentWd;
      ChainCloses(t, p, avail - {x}, rank);
      var c := Chain(t, p, avail - {x});
      assert Chain(t, x, avail) == [x] + c;
      if c != [] { assert 0 <= p && p in t; }
      assert forall y :: y in c ==> rank(y) < rank(x);
    }
  }

  /** In every run the walk up from wd meets each ancestor once and ends by itself, at an entry
      whose parent is unknown, the root marker or gone, and never comes back to wd. */
  lemma UpwardWalkEnds(run: seq<State>, n: nat, wd: int)
    requires Behaviour(run) && n < |run| && wd in run[n].table
    ensures var t := run[n].table;
            var c := Ancestors(t, wd);
            && wd !in c
            && (forall i, j :: 0 <= i < j < |c| ==> c[i] != c[j])
            && (forall y :: (y == wd || y in c) && 0 <= t[y].parentWd && t[y].parentWd in t ==> t[y].parentWd in c)
  {
    RunsKeepInv(run, n);
    AncestorsClose(run[n].table, wd);
  }

  lemma AncestorsClose(t: Table, wd: int)
    requires Acyclic(t) && wd in t
    ensures var c := Ancestors(t, wd);
            && wd !in c
            && (forall i, j :: 0 <= i < j < |c| ==> c[i] != c[j])
            && (forall y :: (y == wd || y in c) && 0 <= t[y].parentWd && t[y].parentWd in t ==> t[y].parentWd in c)
  {
    var rank: int -> nat :| Ranked(t, rank);
    ChainCloses(t, t[wd].parentWd, t.Keys - {wd}, rank);
  }
}
