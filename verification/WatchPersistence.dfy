/**
 What every operation does to the coverage of a location: a live entry watches it, or waits for it above
 it, or a deleted one will be told of its deletion. Creating and deleting directories, requests, and
 releases of other locations never end it. Handling an event ends it exactly when the event was the last
 one to wait for and the pass over the entry does not reach a watch for the location, or when the
 clean-up takes the descriptor along with that of another location.
 */
module WatchPersistence {
  import opened Wrappers
  import opened InotifyKernel
  import opened WatchTable
  import opened WatchSweep
  import opened WatchInvariant
  import opened WatchEffects
  import opened WatchCleanup
  import opened WatchRecheck
  import opened TreeSteps
  import opened WatchKin

  // ----- coverage -----

  ghost predicate AllBelow(p: Path, ps: seq<Path>) {
    forall i :: 0 <= i < |ps| ==> p < ps[i]
  }

  ghost predicate MissingFor(ws: seq<Watch>, l: Path) {
    exists w :: w in ws && WaitsFor(w, l)
  }

  predicate StartsFor(w: Watch, l: Path) {
    w.Regular() && w.startPoint && w.adir.location == l && w.adir.persistent
  }

  ghost predicate StartFor(ws: seq<Watch>, l: Path) {
    exists w :: w in ws && StartsFor(w, l)
  }

  ghost predicate CreatePending(q: seq<Event>, x: int) {
    exists ev :: ev in q && ev.wd == x && ev.kind.Create? && ev.isDir
  }

  /** Entry x answers for l: it waits for l above it, or it watches l, or it was deleted and will hear of it. */
  ghost predicate Guard(st: State, l: Path, x: int) {
    x in st.table &&
    var path, ws := st.table[x].path, st.table[x].watches;
    || (&& st.kernel.Live(x) && path < l && MissingFor(ws, l)
        && (l[..|path| + 1] in st.kernel.dirs ==> CreatePending(st.kernel.queue, x)))
    || (st.kernel.Live(x) && path == l && StartFor(ws, l))
    || (!st.kernel.Live(x) && DeleteSelfEvent(x) in st.kernel.queue && (MissingFor(ws, l) || StartFor(ws, l)))
  }

  ghost predicate Covered(st: State, l: Path) {
    exists x :: Guard(st, l, x)
  }

  /** Nothing a guard rests on has changed at x, and nothing was taken off the queue. */
  lemma GuardStays(st: State, r: State, l: Path, x: int)
    requires Guard(st, l, x) && x in r.table && r.table[x].path == st.table[x].path
    requires r.kernel.dirs == st.kernel.dirs && (r.kernel.Live(x) <==> st.kernel.Live(x))
    requires st.kernel.queue <= r.kernel.queue
    requires MissingFor(st.table[x].watches, l) ==> MissingFor(r.table[x].watches, l)
    requires StartFor(st.table[x].watches, l) ==> StartFor(r.table[x].watches, l)
    ensures Guard(r, l, x)
  {
    assert forall ev :: ev in st.kernel.queue ==> ev in r.kernel.queue;
  }

  /** The queue q' holds no more than q, but for announcements of descriptors that went. */
  ghost predicate OnlyIgnored(q: seq<Event>, q': seq<Event>) {
    forall ev :: ev in q' ==> ev in q || ev.kind.Ignored?
  }

  /** A guard that is there afterwards was there before, if nothing it rests on is new. */
  lemma GuardWasThere(st: State, r: State, l: Path, x: int)
    requires Guard(r, l, x) && x in st.table && r.table[x].path == st.table[x].path
    requires r.kernel.dirs == st.kernel.dirs && QueueOk(st.kernel) && (r.kernel.Live(x) ==> st.kernel.Live(x))
    requires OnlyIgnored(st.kernel.queue, r.kernel.queue)
    requires MissingFor(r.table[x].watches, l) ==> MissingFor(st.table[x].watches, l)
    requires StartFor(r.table[x].watches, l) ==> StartFor(st.table[x].watches, l)
    ensures Guard(st, l, x)
    ensures r.kernel.Live(x) <==> st.kernel.Live(x)
  {
    if CreatePending(r.kernel.queue, x) {
      var ev :| ev in r.kernel.queue && ev.wd == x && ev.kind.Create? && ev.isDir;
      assert ev in st.kernel.queue;
    }
    assert DeleteSelfEvent(x) in r.kernel.queue ==> DeleteSelfEvent(x) in st.kernel.queue;
  }

  // ----- monitorDirectory -----

  lemma MonitorKeepsEntry(st: State, p: Path, f: Adir, startPoint: bool, missing: Option<PathArray>, x: int, s: State)
    requires st.kernel.WellFormed() && p in st.kernel.dirs && x in st.table && 1 <= x < st.kernel.nextWd
    requires s == MonitorExisting(st, p, f, f.location, startPoint, missing)
    ensures s.kernel.dirs == st.kernel.dirs && s.kernel.queue == st.kernel.queue
    ensures x in s.table && s.table[x].path == st.table[x].path && st.table[x].watches <= s.table[x].watches
    ensures s.kernel.Live(x) <==> st.kernel.Live(x)
  {
    MonitorExistingAt(st, p, f, f.location, startPoint, missing, x);
    hide MonitorExisting;
    if st.kernel.Live(x) {
      ExtendsLive(st.kernel, s.kernel, x);
    } else if s.kernel.Live(x) {
      ExtendsLiveBack(st.kernel, s.kernel, x);
    }
  }

  lemma KeepsKinds(ws: seq<Watch>, ws': seq<Watch>, l: Path)
    requires ws <= ws'
    ensures MissingFor(ws, l) ==> MissingFor(ws', l)
    ensures StartFor(ws, l) ==> StartFor(ws', l)
  {
    assert forall w :: w in ws ==> w in ws';
  }

  /** Monitoring a directory, for whatever location, ends no coverage. */
  lemma MonitorCovered(st: State, ds: set<Adir>, f: Adir, p: Path, startPoint: bool, missing: Option<PathArray>,
                       l: Path)
    requires OnlyFor(st.kernel, st.table, ds) && Covered(st, l) && p in st.kernel.dirs
    ensures Covered(MonitorExisting(st, p, f, f.location, startPoint, missing), l)
  {
    var x :| Guard(st, l, x);
    var s := MonitorExisting(st, p, f, f.location, startPoint, missing);
    assert EntryFits(st.kernel, ds, x, st.table[x]);
    hide OnlyFor, Guard;
    MonitorKeepsEntry(st, p, f, startPoint, missing, x, s);
    hide MonitorExisting;
    KeepsKinds(st.table[x].watches, s.table[x].watches, l);
    hide MissingFor, StartFor;
    GuardStays(st, s, l, x);
  }

  /** It covers no other location, and below a location nothing. */
  lemma MonitorUncovered(st: State, ds: set<Adir>, f: Adir, p: Path, startPoint: bool, missing: Option<PathArray>,
                         l: Path)
    requires OnlyFor(st.kernel, st.table, ds) && p in st.kernel.dirs
    requires f.location != l || (missing.None? && !startPoint)
    requires Covered(MonitorExisting(st, p, f, f.location, startPoint, missing), l)
    ensures Covered(st, l)
  {
    var s := MonitorExisting(st, p, f, f.location, startPoint, missing);
    var x :| Guard(s, l, x);
    MonitorOneMore(st, ds, f, p, startPoint, missing, s);
    hide MonitorExisting;
    var own := AutoscanWatch(st.nextId, startPoint, f, f.location, missing);
    NoneNew(st, s, WatchOf(s.kernel, p), own, l, x);
    assert EntryFits(st.kernel, ds, x, st.table[x]);
    hide Guard;
    MonitorKeepsEntry(st, p, f, startPoint, missing, x, s);
    hide OnlyFor, MissingFor, StartFor, OneMore;
    GuardWasThere(st, s, l, x);
  }

  lemma NoneNew(st: State, s: State, wd: int, own: Watch, l: Path, x: int)
    requires OneMore(st, s, wd, own) && !WaitsFor(own, l) && !StartsFor(own, l) && Guard(s, l, x)
    ensures x in st.table && s.table[x].path == st.table[x].path
    ensures MissingFor(s.table[x].watches, l) ==> MissingFor(st.table[x].watches, l)
    ensures StartFor(s.table[x].watches, l) ==> StartFor(st.table[x].watches, l)
  {
    forall w | w in s.table[x].watches && (WaitsFor(w, l) || StartsFor(w, l))
      ensures x in st.table && w in st.table[x].watches
    {
      assert Holds(s.table, x, w);
    }
  }

  /** Whatever was known before, a recheck for f leaves f's location covered. */
  lemma RecheckCovers(st: State, curWd: int, ds: set<Adir>, q: Stake, f: Adir, arr: PathArray, r: State)
    requires Base(st, ds, q) && f in ds && f.persistent && arr.comps == f.location
    requires (curWd != -1 ==> curWd in st.table) && ArrayFits(st.table, st.nextId, arr)
    requires r == RecheckNonexistingMonitor(st, curWd, arr, f, f.location)
    ensures Base(r, ds, q) && (q.owned && f.location == q.location ==> Covered(r, f.location))
  {
    var s := if curWd != -1 then RemoveNonexistingMonitor(st, curWd, arr.id) else st;
    hide Base, ArrayFits, MonitorExisting;
    if curWd != -1 { RemovedBase(st, ds, q, curWd, arr); }
    hide RemoveNonexistingMonitor;
    var l := f.location;
    var n := Deepest(st.kernel.dirs, l);
    assert l[..|l|] == l;
    if n == |l| {
      MonitorBase(s, ds, q, f, l, true, None);
      if q.owned && l == q.location { StartCovers(s, ds, q, f); }
    } else {
      MonitorBase(s, ds, q, f, l[..n], false, Some(arr));
      MissingCovers(s, ds, q, f, l[..n], arr);
    }
  }

  lemma RemovedBase(st: State, ds: set<Adir>, q: Stake, wd: int, arr: PathArray)
    requires Base(st, ds, q) && wd in st.table && ArrayFits(st.table, st.nextId, arr)
    ensures var s := RemoveNonexistingMonitor(st, wd, arr.id); Base(s, ds, q) && ArrayFits(s.table, s.nextId, arr)
  {
    hide Base, ArrayFits, DropWatch;
    var i := FirstIndex(st.table[wd].watches, MissingWith(arr.id));
    if i < |st.table[wd].watches| {
      DropWatchBase(st, ds, q, wd, i);
      DroppedArrays(st, wd, i, arr);
    }
  }

  lemma DroppedArrays(st: State, wd: int, i: nat, arr: PathArray)
    requires wd in st.table && i < |st.table[wd].watches| && ArrayFits(st.table, st.nextId, arr)
    ensures ArrayFits(DropWatch(st, wd, i).table, DropWatch(st, wd, i).nextId, arr)
  {
    var r := DropWatch(st, wd, i);
    assert forall w :: w in r.table[wd].watches ==> w in st.table[wd].watches;
    assert forall x, w :: HoldsMissing(r.table, x, w) ==> HoldsMissing(st.table, x, w);
  }

  lemma StartCovers(s: State, ds: set<Adir>, q: Stake, f: Adir)
    requires Base(s, ds, q) && f in ds && f.persistent && f.location in s.kernel.dirs
    requires q.owned && q.location == f.location
    ensures Covered(MonitorExisting(s, f.location, f, f.location, true, None), f.location)
  {
    var l := f.location;
    var r := MonitorExisting(s, l, f, l, true, None);
    MonitorBase(s, ds, q, f, l, true, None);
    MonitorExistingAt(s, l, f, l, true, None, 1);
    var x := WatchOf(r.kernel, l);
    HomeOf(r.kernel, l);
    assert EntryFits(r.kernel, ds, x, r.table[x]);
    var w0 := AutoscanWatch(s.nextId, true, f, l, None);
    assert OwnedAt(r.kernel, r.table, l);
    hide MonitorExisting, OnlyFor, Kin;
    if WatchesAt(r, x) == WatchesAt(s, x) + [w0] {
      assert w0 in r.table[x].watches && StartsFor(w0, l);
    } else {
      var w :| w in r.table[x].watches && Matches(RegularFor(l), w);
      assert WatchFits(ds, l, w) && Holds(r.table, x, w);
      assert StartsFor(w, l);
    }
    assert StartFor(r.table[x].watches, l);
    assert Guard(r, l, x);
  }

  lemma MissingCovers(s: State, ds: set<Adir>, q: Stake, f: Adir, p: Path, arr: PathArray)
    requires Base(s, ds, q) && f in ds && arr.comps == f.location && f.location !in s.kernel.dirs && f.persistent
    requires p < f.location && p in s.kernel.dirs && f.location[..|p| + 1] !in s.kernel.dirs
    requires ArrayFits(s.table, s.nextId, arr)
    ensures Covered(MonitorExisting(s, p, f, f.location, false, Some(arr)), f.location)
  {
    var r := MonitorExisting(s, p, f, f.location, false, Some(arr));
    MonitorBase(s, ds, q, f, p, false, Some(arr));
    MonitorExistingAt(s, p, f, f.location, false, Some(arr), 1);
    var x := WatchOf(r.kernel, p);
    HomeOf(r.kernel, p);
    assert EntryFits(r.kernel, ds, x, r.table[x]);
    hide MonitorExisting, OnlyFor, Kin;
    var w := AutoscanWatch(s.nextId, false, f, f.location, Some(arr));
    assert w in r.table[x].watches && WaitsFor(w, f.location);
    assert MissingFor(r.table[x].watches, f.location);
    assert Guard(r, f.location, x);
  }

  /** monitorNonexisting for f covers f's location and changes the coverage of no other. */
  lemma MonitorNonexistingCovers(st: State, ds: set<Adir>, q: Stake, f: Adir, r: State)
    requires Base(st, ds, q) && f in ds && f.persistent && r == MonitorNonexisting(st, f.location, f, f.location)
    ensures Base(r, ds, q)
    ensures q.owned ==> (Covered(r, q.location) <==> Covered(st, q.location) || f.location == q.location)
  {
    NextIdBase(st, ds, q);
    var s := st.(nextId := st.nextId + 1);
    assert ArrayFits(s.table, s.nextId, PathArray(st.nextId, f.location));
    hide ArrayFits, Covered, RecheckNonexistingMonitor, Kin;
    RecheckCovers(s, -1, ds, q, f, PathArray(st.nextId, f.location), r);
    MonitorNonexistingKeeps(st, ds, f, r, q.location);
  }

  lemma MonitorNonexistingKeeps(st: State, ds: set<Adir>, f: Adir, r: State, l: Path)
    requires OnlyFor(st.kernel, st.table, ds) && r == MonitorNonexisting(st, f.location, f, f.location)
    ensures Covered(st, l) ==> Covered(r, l)
    ensures f.location != l && Covered(r, l) ==> Covered(st, l)
  {
    assert [] in st.kernel.dirs;
    hide OnlyFor, Covered, MonitorExisting, MonitorNonexisting;
    var p, missing := NonexistingIs(st, f, r);
    var s := st.(nextId := st.nextId + 1);
    if Covered(st, l) {
      CoveredAnyId(st, l, s);
      MonitorCovered(s, ds, f, p, missing.None?, missing, l);
    }
    if f.location != l && Covered(r, l) {
      MonitorUncovered(s, ds, f, p, missing.None?, missing, l);
      CoveredAnyId(s, l, st);
    }
  }

  /** monitorNonexisting monitors the deepest existing directory of the path. */
  lemma NonexistingIs(st: State, f: Adir, r: State) returns (p: Path, missing: Option<PathArray>)
    requires [] in st.kernel.dirs && r == MonitorNonexisting(st, f.location, f, f.location)
    ensures p in st.kernel.dirs
    ensures r == MonitorExisting(st.(nextId := st.nextId + 1), p, f, f.location, missing.None?, missing)
  {
    var l := f.location;
    var n := Deepest(st.kernel.dirs, l);
    p, missing := l[..n], if n == |l| then None else Some(PathArray(st.nextId, l));
    hide MonitorExisting;
  }

  lemma CoveredAnyId(st: State, l: Path, s: State)
    requires Covered(st, l) && s.kernel == st.kernel && s.table == st.table
    ensures Covered(s, l)
  {
    var x :| Guard(st, l, x);
    assert Guard(s, l, x);
  }

  // ----- recheckNonexistingMonitors -----

  /** The watch taken out for a recheck waits for the same location as the one rechecked. */
  lemma SameArray(st: State, ds: set<Adir>, q: Stake, wd: int, i: nat, j: nat)
    requires Base(st, ds, q) && wd in st.table && i < |st.table[wd].watches| && j < |st.table[wd].watches|
    requires st.table[wd].watches[i].Missing()
    requires Matches(MissingWith(st.table[wd].watches[i].nonexisting.value.id), st.table[wd].watches[j])
    ensures WaitsFor(st.table[wd].watches[j], st.table[wd].watches[i].adir.location)
    ensures ArrayFits(st.table, st.nextId, st.table[wd].watches[i].nonexisting.value)
    ensures WatchFits(ds, st.table[wd].path, st.table[wd].watches[i])
  {
    var w, v := st.table[wd].watches[i], st.table[wd].watches[j];
    assert EntryFits(st.kernel, ds, wd, st.table[wd]);
    assert WatchFits(ds, st.table[wd].path, w) && WatchFits(ds, st.table[wd].path, v);
    assert HoldsMissing(st.table, wd, w) && HoldsMissing(st.table, wd, v);
  }

  /** Taking out a watch that waits for another location ends no coverage and adds none. */
  lemma DropKeepsGuard(st: State, wd: int, j: nat, s: State, l: Path, x: int)
    requires st.kernel.WellFormed() && Guard(st, l, x) && wd in st.table && j < |st.table[wd].watches|
    requires st.table[wd].watches[j].Missing() && !WaitsFor(st.table[wd].watches[j], l) && s == DropWatch(st, wd, j)
    ensures Guard(s, l, x)
  {
    RemoveWatchKeeps(st.kernel, wd);
    assert st.kernel.queue <= s.kernel.queue;
    if x == wd {
      DropKeepsOthers(st.table[wd].watches, j, l);
      OneIsNone(st.table[wd].watches, j, l);
    }
    hide DropWatch, Kernel.WellFormed;
    GuardStays(st, s, l, x);
  }

  lemma DropKeepsOthers(ws: seq<Watch>, j: nat, l: Path)
    requires j < |ws| && ws[j].Missing() && !WaitsFor(ws[j], l)
    ensures MissingFor(RemoveUnordered(ws, j), l) <==> MissingFor(ws, l)
    ensures StartFor(RemoveUnordered(ws, j), l) <==> StartFor(ws, l)
  {
    OthersStay(ws, j);
    hide RemoveUnordered;
  }

  lemma OneIsNone(ws: seq<Watch>, j: nat, l: Path)
    requires j < |ws| && ws[j].Missing() && !WaitsFor(ws[j], l)
    ensures |ws| == 1 ==> !MissingFor(ws, l) && !StartFor(ws, l)
  {
  }

  lemma DropAddsNoGuard(st: State, wd: int, j: nat, s: State, l: Path, x: int)
    requires st.kernel.WellFormed() && QueueOk(st.kernel) && Guard(s, l, x) && wd in st.table
    requires j < |st.table[wd].watches| && s == DropWatch(st, wd, j)
    ensures Guard(st, l, x)
  {
    RemoveWatchKeeps(st.kernel, wd);
    OthersStay(st.table[wd].watches, j);
    assert forall w :: w in s.table[x].watches ==> w in st.table[x].watches;
    assert OnlyIgnored(st.kernel.queue, s.kernel.queue);
    hide DropWatch, Kernel.WellFormed;
    GuardWasThere(st, s, l, x);
  }

  /** The recheck of a watch that waits for another location changes nothing. */
  lemma RecheckOther(st: State, ds: set<Adir>, q: Stake, wd: int, i: nat, l: Path, r: State)
    requires Inv(st) && Base(st, ds, q) && wd in st.table && i < |st.table[wd].watches|
    requires st.table[wd].watches[i].Missing() && st.table[wd].watches[i].adir.location != l
    requires r == RecheckOne(st, wd, i)
    ensures Covered(r, l) <==> Covered(st, l)
  {
    var w := st.table[wd].watches[i];
    hide Agree, Guard;
    var j, s, p, missing := RecheckOneIs(st, wd, i, r);
    SameArray(st, ds, q, wd, i, j);
    hide RecheckOne, MonitorExisting, ArrayFits;
    DropWatchBase(st, ds, q, wd, j);
    if x :| Guard(st, l, x) { DropKeepsGuard(st, wd, j, s, l, x); }
    if x :| Guard(s, l, x) { DropAddsNoGuard(st, wd, j, s, l, x); }
    hide DropWatch, Kin;
    if Covered(s, l) { MonitorCovered(s, ds, w.adir, p, missing.None?, missing, l); }
    if Covered(r, l) { MonitorUncovered(s, ds, w.adir, p, missing.None?, missing, l); }
  }

  lemma RecheckOneCovers(st: State, ds: set<Adir>, q: Stake, wd: int, i: nat, r: State)
    requires Inv(st) && Base(st, ds, q) && wd in st.table && [] in st.kernel.dirs
    requires i < |st.table[wd].watches| && st.table[wd].watches[i].Missing() && r == RecheckOne(st, wd, i)
    ensures Inv(r) && Base(r, ds, q) && wd in r.table
    ensures q.owned ==>
              (Covered(r, q.location) <==> Covered(st, q.location) || WaitsFor(st.table[wd].watches[i], q.location))
  {
    var w := st.table[wd].watches[i];
    SameArray(st, ds, q, wd, i, i);
    RecheckNonexistingMonitorInv(st, wd, w.nonexisting.value, w.adir, w.normPath);
    hide ArrayFits, OnlyFor, Kin;
    RecheckCovers(st, wd, ds, q, w.adir, w.nonexisting.value, r);
    hide Inv;
    if w.adir.location != q.location { RecheckOther(st, ds, q, wd, i, q.location, r); }
  }

  /** The loop covers the location exactly if it looks at a watch that waits for it, or it was covered. */
  lemma {:induction false} RecheckFromCovers(st: State, ds: set<Adir>, q: Stake, wd: int, i: nat, n: nat)
    requires Inv(st) && Base(st, ds, q) && wd in st.table && [] in st.kernel.dirs
    ensures var r := RecheckFrom(st, wd, i, n);
            && Base(r, ds, q)
            && (q.owned ==>
                  (Covered(r, q.location) <==>
                   Covered(st, q.location) || LooksFor(Looked(st, wd, i, n), q.location)))
    decreases n - i
  {
    hide Inv, Base, Covered, LooksFor;
    if i < n && i < |st.table[wd].watches| {
      var w, r := st.table[wd].watches[i], RecheckOne(st, wd, i);
      LooksFirst(w, Looked(r, wd, i + 1, n), q.location);
      if w.Missing() { RecheckOneCovers(st, ds, q, wd, i, r); }
      hide RecheckOne;
      RecheckFromCovers(r, ds, q, wd, i + 1, n);
    } else {
      LooksNowhere(q.location);
    }
  }

  ghost predicate LooksFor(ws: seq<Watch>, l: Path) {
    exists w :: w in ws && WaitsFor(w, l)
  }

  lemma LooksFirst(w: Watch, ws: seq<Watch>, l: Path)
    ensures LooksFor([w] + ws, l) <==> WaitsFor(w, l) || LooksFor(ws, l)
  {
    assert w in [w] + ws;
    assert forall v :: v in ws ==> v in [w] + ws;
  }

  lemma LooksNowhere(l: Path)
    ensures !LooksFor([], l)
  {
  }

  /** A pass covers the location exactly if it was covered or a watch that waits for it is within reach. */
  lemma RecheckAllCovers(st: State, ds: set<Adir>, q: Stake, wd: int)
    requires Inv(st) && Base(st, ds, q) && wd in st.table
    ensures [] in st.kernel.dirs
    ensures var r := RecheckNonexistingMonitors(st, wd);
            && Base(r, ds, q)
            && (q.owned ==>
                  (Covered(r, q.location) <==>
                   Covered(st, q.location) || Reached(st.kernel, wd, st.table[wd].watches, q.location)))
  {
    LookedExactly(st, wd, q.location);
    hide Inv, Base, Covered, Reached;
    RecheckFromCovers(st, ds, q, wd, 0, |st.table[wd].watches|);
  }

  // ----- directories below a location -----

  lemma {:induction false} MonitorEachCovers(st: State, ds: set<Adir>, q: Stake, f: Adir, ps: seq<Path>, l: Path)
    requires [] in st.kernel.dirs && Base(st, ds, q) && f in ds && f.recursive && AllBelow(f.location, ps)
    ensures var r := MonitorEach(st, ps, f, f.location);
            Base(r, ds, q) && (Covered(st, l) <==> Covered(r, l))
    decreases |ps|
  {
    hide Base, Covered, MonitorDirectory;
    if ps != [] {
      var s := MonitorDirectory(st, ps[0], f, f.location, false, None);
      MonitorOneCovers(st, ds, q, f, ps[0], l, s);
      MonitorEachCovers(s, ds, q, f, ps[1..], l);
    }
  }

  lemma MonitorOneCovers(st: State, ds: set<Adir>, q: Stake, f: Adir, p: Path, l: Path, s: State)
    requires Base(st, ds, q) && f in ds && f.recursive && f.location < p && [] in st.kernel.dirs
    requires s == MonitorDirectory(st, p, f, f.location, false, None)
    ensures Base(s, ds, q) && (Covered(st, l) <==> Covered(s, l))
  {
    hide OnlyFor, Kin, Covered, MonitorExisting;
    if p in st.kernel.dirs {
      MonitorBase(st, ds, q, f, p, false, None);
      if Covered(st, l) { MonitorCovered(st, ds, f, p, false, None, l); }
      if Covered(s, l) { MonitorUncovered(st, ds, f, p, false, None, l); }
    }
  }

  lemma MonitorBelowCovers(st: State, ds: set<Adir>, q: Stake, f: Adir, path: Path, below: seq<Path>, l: Path)
    requires [] in st.kernel.dirs && Base(st, ds, q) && f in ds && f.recursive
    requires f.location < path && AllBelow(path, below)
    ensures var r := MonitorRecursive(st, path, f, f.location, false, below);
            Base(r, ds, q) && (Covered(st, l) <==> Covered(r, l))
  {
    hide Base, Covered;
    forall i | 0 <= i < |below| ensures f.location < below[i] {
      assert below[i][..|path|] == path && path[..|f.location|] == f.location;
    }
    MonitorEachCovers(st, ds, q, f, [path], l);
    var s := MonitorDirectory(st, path, f, f.location, false, None);
    assert MonitorEach(st, [path], f, f.location) == MonitorEach(s, [path][1..], f, f.location) == s;
    MonitorEachCovers(s, ds, q, f, below, l);
  }

  // ----- handling an event -----

  /** Taking an event off the queue ends a guard only if it is the event the guard waits for. */
  lemma DequeueGuard(st: State, l: Path, x: int)
    requires Guard(st, l, x) && st.kernel.queue != []
    ensures var s := Dequeued(st);
            var ev := st.kernel.queue[0];
            || Guard(s, l, x)
            || (ev.wd == x && ev.kind.Create? && ev.isDir && MissingFor(s.table[x].watches, l))
            || (ev.wd == x && ev == DeleteSelfEvent(x)
                && (MissingFor(s.table[x].watches, l) || StartFor(s.table[x].watches, l)))
  {
    var s := Dequeued(st);
    var q := st.kernel.queue;
    SameLive(st.kernel, s.kernel, x);
    assert q == [q[0]] + q[1..];
    if CreatePending(q, x) && !CreatePending(q[1..], x) {
      var ev :| ev in q && ev.wd == x && ev.kind.Create? && ev.isDir;
      assert ev == q[0];
    }
  }

  // The clean-up for IN_IGNORED.

  /** The clean-up for wd takes x's descriptor along. */
  ghost predicate TakenAlong(st: State, wd: int, x: int) {
    wd in st.table && st.kernel.Live(x) && x in DescendantsOf(st.table[wd].watches, st.descendants)
  }

  lemma {:induction false} SweepAllQueue(st: State, xs: seq<int>, wd: int)
    requires forall x :: x in xs ==> x in st.table
    ensures OnlyIgnored(st.kernel.queue, SweepAll(st, xs, wd).kernel.queue)
    decreases |xs|
  {
    if xs != [] { SweepAllQueue(SweepEntry(st, xs[0], wd), xs[1..], wd); }
  }

  lemma {:induction false} RemoveWatchesQueue(k: Kernel, wds: seq<int>)
    ensures OnlyIgnored(k.queue, RemoveWatches(k, wds).queue)
    decreases |wds|
  {
    if wds != [] { RemoveWatchesQueue(k.RemoveWatch(wds[0]), wds[1..]); }
  }

  lemma ForgetQueue(st: State, wd: int)
    requires wd in st.table
    ensures OnlyIgnored(st.kernel.queue, Forget(st, wd).kernel.queue)
  {
    SweepAllQueue(st, Ancestors(st.table, wd), wd);
    var s := RemoveWatchMoves(st, wd);
    RemoveWatchesQueue(s.kernel, DescendantsOf(s.table[wd].watches, s.descendants));
  }

  /** Autoscan watches of other entries outlive the clean-up, and none are added. */
  lemma ForgetWatches(st: State, wd: int, x: int, w: Watch)
    requires InvBut(st, wd) && wd in st.table && x in st.table && x != wd && w.AutoscanWatch?
    ensures x in Forget(st, wd).table && (w in Forget(st, wd).table[x].watches <==> w in st.table[x].watches)
  {
    IgnoredCleanup(st, wd, x);
    if x in Ancestors(st.table, wd) {
      var ws, ws' := st.table[x].watches, Forget(st, wd).table[x].watches;
      assert w != MoveWatch(wd) && multiset(ws')[w] == multiset(ws)[w];
      assert w in ws' <==> w in multiset(ws');
      assert w in ws <==> w in multiset(ws);
    }
  }

  lemma ForgetKinds(st: State, wd: int, x: int, l: Path)
    requires InvBut(st, wd) && wd in st.table && x in st.table && x != wd
    ensures var r := Forget(st, wd);
            && x in r.table
            && (MissingFor(r.table[x].watches, l) <==> MissingFor(st.table[x].watches, l))
            && (StartFor(r.table[x].watches, l) <==> StartFor(st.table[x].watches, l))
  {
    hide Forget, InvBut;
    var r := Forget(st, wd);
    forall w: Watch | w.AutoscanWatch? ensures x in r.table && (w in r.table[x].watches <==> w in st.table[x].watches) {
      ForgetWatches(st, wd, x, w);
    }
    ForgetWatches(st, wd, x, AutoscanWatch(0, false, Adir([], false, false, false), [], None));
  }

  /** An entry that is a guard keeps its descriptor exactly if it is not taken along. */
  lemma ForgetLive(st: State, wd: int, x: int, l: Path)
    requires InvBut(st, wd) && wd in st.table && x in st.table && x != wd
    requires MissingFor(st.table[x].watches, l) || StartFor(st.table[x].watches, l)
    ensures Forget(st, wd).kernel.Live(x) <==> st.kernel.Live(x) && !TakenAlong(st, wd, x)
  {
    IgnoredCleanup(st, wd, x);
    assert st.table[x].watches != [MoveWatch(wd)];
  }

  ghost predicate SamePath(st: State, r: State, x: int) {
    x in st.table && x in r.table && r.table[x].path == st.table[x].path
  }

  lemma ForgetPath(st: State, ds: set<Adir>, q: Stake, wd: int, x: int)
    requires Base(st, ds, q) && wd in st.table && !st.kernel.Live(wd) && x in st.table && x in Forget(st, wd).table
    ensures SamePath(st, Forget(st, wd), x)
  {
    ForgetBase(st, ds, q, wd);
    hide Forget;
    assert EntryFits(st.kernel, ds, x, st.table[x]);
    assert EntryFits(Forget(st, wd).kernel, ds, x, Forget(st, wd).table[x]);
  }

  lemma ForgetGuard(st: State, ds: set<Adir>, q: Stake, wd: int, x: int, l: Path)
    requires InvBut(st, wd) && Base(st, ds, q) && wd in st.table && !st.kernel.Live(wd) && x != wd && Guard(st, l, x)
    requires !TakenAlong(st, wd, x)
    ensures Guard(Forget(st, wd), l, x)
  {
    var r := Forget(st, wd);
    ForgetBase(st, ds, q, wd);
    ForgetKinds(st, wd, x, l);
    ForgetLive(st, wd, x, l);
    ForgetPath(st, ds, q, wd, x);
    hide Forget, InvBut, Base, TakenAlong;
    GuardStays(st, r, l, x);
  }

  lemma ForgetAddsNoGuard(st: State, ds: set<Adir>, q: Stake, wd: int, x: int, l: Path)
    requires InvBut(st, wd) && Base(st, ds, q) && wd in st.table && !st.kernel.Live(wd) && Guard(Forget(st, wd), l, x)
    ensures x != wd && Guard(st, l, x) && !TakenAlong(st, wd, x)
  {
    var r := Forget(st, wd);
    assert x != wd && x in st.table by { IgnoredCleanup(st, wd, x); }
    ForgetQueue(st, wd);
    ForgetKinds(st, wd, x, l);
    ForgetPath(st, ds, q, wd, x);
    assert MissingFor(r.table[x].watches, l) || StartFor(r.table[x].watches, l);
    ForgetLive(st, wd, x, l);
    hide Forget, InvBut, Kin;
    GuardWasThere(st, r, l, x);
  }

  /** The events that may bring directories with them: one created, moved in, or closed after writing. */
  predicate PicksUp(ev: Event) {
    ev.isDir && (ev.kind.Create? || ev.kind.MovedTo? || ev.kind.CloseWrite?)
  }

  /** below lists the directories that such an event brings, beside its own. */
  ghost predicate BelowEvent(st: State, below: seq<Path>) {
    st.kernel.queue != [] &&
    var ev := st.kernel.queue[0];
    ev.wd in st.table && PicksUp(ev) ==> Listing(st.kernel.dirs, EventPath(st.table[ev.wd], ev), below)
  }

  lemma ListedBelow(dirs: map<Path, Ino>, p: Path, below: seq<Path>)
    requires Listing(dirs, p, below)
    ensures AllBelow(p, below)
  {
    forall i | 0 <= i < |below| ensures p < below[i] {
      assert below[i] in below;
    }
  }

  /** Without renames and unmounts, the events after which recheckNonexistingMonitors is called. */
  predicate Rechecks(ev: Event) {
    ev.kind.DeleteSelf? || (ev.isDir && ev.kind.Create?)
  }

  // Directories.

  lemma DirectoriesCover(s: State, ds: set<Adir>, q: Stake, ev: Event, below: seq<Path>, steps: nat)
    requires [] in s.kernel.dirs && ev.wd in s.table && Calm(ev) && !ev.kind.Ignored?
    requires Inv(s) && Base(s, ds, q)
    requires PicksUp(ev) ==> AllBelow(EventPath(s.table[ev.wd], ev), below)
    ensures var path := EventPath(s.table[ev.wd], ev);
            var found := BestMatch(s.table[ev.wd].watches, path);
            var r := HandleDirectories(s, ev, found, path, below, steps);
            && Base(r, ds, q)
            && (q.owned ==>
                  (Covered(r, q.location) <==>
                   || Covered(s, q.location)
                   || (Rechecks(ev) && Reached(s.kernel, ev.wd, s.table[ev.wd].watches, q.location))))
  {
    var e := s.table[ev.wd];
    var path := EventPath(e, ev);
    var found := BestMatch(e.watches, path);
    assert EntryFits(s.kernel, ds, ev.wd, e);
    hide Inv, Base, Covered, Reached, EntryFits;
    var s2 := if Rechecks(ev) then RecheckNonexistingMonitors(s, ev.wd) else s;
    if Rechecks(ev) { RecheckAllCovers(s, ds, q, ev.wd); }
    CalmDirectories(s, ev, found, path, below, steps, s2);
    hide HandleDirectories, RecheckNonexistingMonitors, MonitorRecursive, BestMatch;
    if found.Some? && found.value.adir.recursive && ev.isDir && ev.kind.Create? {
      CreatedBelow(s, ds, ev, found.value);
      MonitorBelowCovers(s2, ds, q, found.value.adir, path, below, q.location);
    }
  }

  /** What is left of the first part without renames: at most one recheck, and the new directory. */
  lemma CalmDirectories(s: State, ev: Event, found: Option<Watch>, path: Path, below: seq<Path>, steps: nat, s2: State)
    requires [] in s.kernel.dirs && ev.wd in s.table && Calm(ev) && !ev.kind.Ignored?
    requires found.Some? ==> found.value.Regular()
    requires s2 == if Rechecks(ev) then RecheckNonexistingMonitors(s, ev.wd) else s
    ensures var r := HandleDirectories(s, ev, found, path, below, steps);
            && (r == s2
                || (found.Some? && found.value.adir.recursive && ev.isDir && ev.kind.Create? && [] in s2.kernel.dirs
                    && r == MonitorRecursive(s2, path, found.value.adir, found.value.normPath, false, below)))
            && (ev.kind.DeleteSelf? ==> r == s2)
  {
    hide RecheckNonexistingMonitors, MonitorRecursive, CheckMoves;
  }

  /** A directory created below an entry with a regular watch lies inside that location. */
  lemma CreatedBelow(s: State, ds: set<Adir>, ev: Event, found: Watch)
    requires ev.wd in s.table && EntryFits(s.kernel, ds, ev.wd, s.table[ev.wd]) && ev.kind.Create?
    requires found in s.table[ev.wd].watches && found.Regular()
    ensures found.adir in ds && found.normPath == found.adir.location
    ensures found.adir.location < EventPath(s.table[ev.wd], ev)
  {
    assert WatchFits(ds, s.table[ev.wd].path, found);
  }

  // The content.

  ghost predicate RegularsStay(ws: seq<Watch>, ws': seq<Watch>) {
    forall w: Watch :: w.Regular() ==> (w in ws <==> w in ws')
  }

  /** In an entry with a start point, that is the watch found for the entry's own path, and the only start
      point there. */
  lemma StartIsFound(ds: set<Adir>, path: Path, ws: seq<Watch>, start: Watch)
    requires OneRegular(ws) && start in ws && start.AutoscanWatch? && start.startPoint
    requires forall w :: w in ws ==> WatchFits(ds, path, w)
    ensures start.Regular() && path == start.adir.location && start.adir in ds && start.normPath == path
    ensures BestMatch(ws, path) == Some(start)
    ensures forall w :: w in ws && w.AutoscanWatch? && w.startPoint ==> w == start
  {
    assert WatchFits(ds, path, start);
    var found := BestMatch(ws, path);
    assert found.Some? && found.value in ws && WatchFits(ds, path, found.value);
    assert |found.value.normPath| >= |path|;
    assert found.value.normPath == path;
    SameWatch(ws, path, start, found.value);
    forall w | w in ws && w.AutoscanWatch? && w.startPoint ensures w == start {
      assert WatchFits(ds, path, w);
      SameWatch(ws, path, start, w);
    }
  }

  lemma SameWatch(ws: seq<Watch>, location: Path, w: Watch, v: Watch)
    requires OneRegular(ws) && w in ws && v in ws
    requires Matches(RegularFor(location), w) && Matches(RegularFor(location), v)
    ensures w == v
  {
    var i :| 0 <= i < |ws| && ws[i] == w;
    var j :| 0 <= j < |ws| && ws[j] == v;
  }

  /** The content part for a deleted directory: its start point is monitored again, if it is persistent. */
  lemma DeletedCovers(st: State, s: State, ds: set<Adir>, q: Stake, ev: Event, found: Watch, below: seq<Path>)
    requires Base(st, ds, q) && Base(s, ds, q) && ev.wd in st.table && ev.wd in s.table
    requires [] in s.kernel.dirs && ev.kind.DeleteSelf? && !s.kernel.Live(ev.wd)
    requires OneRegular(st.table[ev.wd].watches) && st.table[ev.wd].path == s.table[ev.wd].path
    requires RegularsStay(st.table[ev.wd].watches, s.table[ev.wd].watches)
    requires BestMatch(st.table[ev.wd].watches, st.table[ev.wd].path) == Some(found) && found.Regular()
    ensures var r := HandleContent(s, ev, found, st.table[ev.wd].path, below);
            && Base(r, ds, q)
            && (q.owned ==> (Covered(r, q.location) <==>
                             Covered(s, q.location) || StartFor(s.table[ev.wd].watches, q.location)))
  {
    var e, path := s.table[ev.wd], s.table[ev.wd].path;
    assert EntryFits(s.kernel, ds, ev.wd, e) && EntryFits(st.kernel, ds, ev.wd, st.table[ev.wd]);
    assert forall w :: w in e.watches ==> WatchFits(ds, path, w);
    var i := FirstIndex(e.watches, AnyStartPoint);
    assert s.(kernel := s.kernel.RemoveWatch(ev.wd)) == s;
    hide Base, Covered, BestMatch, EntryFits;
    if i < |e.watches| {
      var start := e.watches[i];
      assert WatchFits(ds, path, start) && start.Regular() && start in st.table[ev.wd].watches;
      StartIsFound(ds, path, st.table[ev.wd].watches, start);
      OnlyStart(st.table[ev.wd].watches, e.watches, start, q.location);
      var r := HandleContent(s, ev, found, path, below);
      if start.adir.persistent { MonitorNonexistingCovers(s, ds, q, start.adir, r); }
    } else {
      NoStart(e.watches, q.location);
    }
  }

  lemma OnlyStart(before: seq<Watch>, ws: seq<Watch>, start: Watch, l: Path)
    requires RegularsStay(before, ws) && start in ws && start.Regular() && start.startPoint
    requires forall w :: w in before && w.AutoscanWatch? && w.startPoint ==> w == start
    ensures StartFor(ws, l) <==> start.adir.persistent && start.adir.location == l
  {
    if w :| w in ws && StartsFor(w, l) { assert w in before; }
    if start.adir.persistent && start.adir.location == l { assert StartsFor(start, l); }
  }

  lemma NoStart(ws: seq<Watch>, l: Path)
    requires FirstIndex(ws, AnyStartPoint) == |ws|
    ensures !StartFor(ws, l)
  {
    assert forall i :: 0 <= i < |ws| ==> !Matches(AnyStartPoint, ws[i]);
  }

  /** The content part: the start point of a deleted directory is monitored again, the rest is left alone. */
  lemma ContentCovers(st: State, s: State, ds: set<Adir>, q: Stake, ev: Event, below: seq<Path>)
    requires Base(st, ds, q) && Base(s, ds, q) && ev.wd in st.table && OneRegular(st.table[ev.wd].watches)
    requires ev.wd in s.table && Calm(ev) && !ev.kind.Ignored? && [] in s.kernel.dirs
    requires ev.kind.DeleteSelf? ==>
               && !s.kernel.Live(ev.wd) && s.table[ev.wd].path == st.table[ev.wd].path
               && RegularsStay(st.table[ev.wd].watches, s.table[ev.wd].watches)
    ensures var path := EventPath(st.table[ev.wd], ev);
            var found := BestMatch(st.table[ev.wd].watches, path);
            var r := if found.Some? then HandleContent(s, ev, found.value, path, below) else s;
            && Base(r, ds, q)
            && (q.owned ==>
                  (Covered(r, q.location) <==>
                   || Covered(s, q.location)
                   || (ev.kind.DeleteSelf? && StartFor(st.table[ev.wd].watches, q.location))))
  {
    var e := st.table[ev.wd];
    var found := BestMatch(e.watches, EventPath(e, ev));
    if ev.kind.DeleteSelf? {
      assert EntryFits(st.kernel, ds, ev.wd, e);
      hide Base, Covered;
      SameStarts(e.watches, s.table[ev.wd].watches, q.location);
      if found.Some? {
        hide RegularsStay;
        DeletedCovers(st, s, ds, q, ev, found.value, below);
      } else if w :| w in e.watches && StartsFor(w, q.location) {
        StartIsFound(ds, e.path, e.watches, w);
      }
    }
  }

  lemma SameStarts(ws: seq<Watch>, ws': seq<Watch>, l: Path)
    requires RegularsStay(ws, ws')
    ensures StartFor(ws, l) <==> StartFor(ws', l)
  {
  }

  /** Rechecking the entry of a dead descriptor leaves it dead and its regular watches where they are. */
  lemma {:induction false} RecheckFromDead(st: State, wd: int, i: nat, n: nat)
    requires Inv(st) && wd in st.table && !st.kernel.Live(wd) && [] in st.kernel.dirs
    ensures var r := RecheckFrom(st, wd, i, n);
            && wd in r.table && !r.kernel.Live(wd) && r.table[wd].path == st.table[wd].path
            && RegularsStay(st.table[wd].watches, r.table[wd].watches)
    decreases n - i
  {
    if i < n && i < |st.table[wd].watches| {
      var w, r := st.table[wd].watches[i], RecheckOne(st, wd, i);
      if w.Missing() {
        RecheckNonexistingMonitorInv(st, wd, w.nonexisting.value, w.adir, w.normPath);
        RecheckDead(st, wd, i, r);
      }
      hide RecheckOne, Inv;
      RecheckFromDead(r, wd, i + 1, n);
    }
  }

  lemma RecheckDead(st: State, wd: int, i: nat, r: State)
    requires Inv(st) && wd in st.table && !st.kernel.Live(wd) && i < |st.table[wd].watches|
    requires st.table[wd].watches[i].Missing() && r == RecheckOne(st, wd, i)
    ensures wd in r.table && !r.kernel.Live(wd) && r.table[wd].path == st.table[wd].path
    ensures RegularsStay(st.table[wd].watches, r.table[wd].watches)
  {
    var w, ws := st.table[wd].watches[i], st.table[wd].watches;
    var j, s, p, missing := RecheckOneIs(st, wd, i, r);
    assert s.kernel == st.kernel && s.table[wd].path == st.table[wd].path;
    assert EntryOk(st.kernel, wd, ws);
    assert RegularsStay(ws, s.table[wd].watches) by { DroppedRegulars(ws, j); }
    hide RecheckOne, RegularsStay, Inv, DropWatch;
    MonitorLeavesDead(s, p, w, missing, r, wd);
  }

  lemma MonitorLeavesDead(s: State, p: Path, w: Watch, missing: Option<PathArray>, r: State, wd: int)
    requires s.kernel.WellFormed() && p in s.kernel.dirs && wd in s.table && 1 <= wd < s.kernel.nextWd
    requires !s.kernel.Live(wd) && w.AutoscanWatch?
    requires r == MonitorExisting(s, p, w.adir, w.normPath, missing.None?, missing)
    ensures wd in r.table && !r.kernel.Live(wd) && r.table[wd].path == s.table[wd].path
    ensures r.table[wd].watches == s.table[wd].watches
  {
    MonitorExistingAt(s, p, w.adir, w.normPath, missing.None?, missing, wd);
    hide MonitorExisting;
    if r.kernel.Live(wd) { ExtendsLiveBack(s.kernel, r.kernel, wd); }
    hide Extends;
  }

  lemma DroppedRegulars(ws: seq<Watch>, j: nat)
    requires j < |ws| && ws[j].Missing()
    ensures RegularsStay(ws, RemoveUnordered(ws, j))
  {
    OthersStay(ws, j);
    hide RemoveUnordered;
  }

  /** Rechecking leaves the deleted directory's descriptor dead and its entry's path as it is, and a start point
      where it is. */
  lemma DeletedStaysDead(s: State, ev: Event, found: Option<Watch>, path: Path, below: seq<Path>, steps: nat)
    requires Inv(s) && ev.wd in s.table && Calm(ev) && ev.kind.DeleteSelf? && !s.kernel.Live(ev.wd)
    requires [] in s.kernel.dirs && (found.Some? ==> found.value.Regular())
    ensures var s1 := HandleDirectories(s, ev, found, path, below, steps);
            && ev.wd in s1.table && !s1.kernel.Live(ev.wd) && s1.table[ev.wd].path == s.table[ev.wd].path
            && RegularsStay(s.table[ev.wd].watches, s1.table[ev.wd].watches)
  {
    CalmDirectories(s, ev, found, path, below, steps, RecheckNonexistingMonitors(s, ev.wd));
    hide Inv, RegularsStay;
    RecheckFromDead(s, ev.wd, 0, |s.table[ev.wd].watches|);
  }

  // The whole event.

  /** The handling of the event gives coverage, whatever there was: the pass reaches a watch that waits for the
      location, or the location's own directory was deleted. */
  ghost predicate Gives(s: State, ev: Event, l: Path) {
    ev.wd in s.table &&
    var ws := s.table[ev.wd].watches;
    || (Rechecks(ev) && Reached(s.kernel, ev.wd, ws, l))
    || (ev.kind.DeleteSelf? && StartFor(ws, l))
  }

  lemma DispatchCovers(s: State, ds: set<Adir>, q: Stake, ev: Event, below: seq<Path>, steps: nat)
    requires Inv(s) && Base(s, ds, q) && ev.wd in s.table && Calm(ev) && !ev.kind.Ignored?
    requires ev.kind.DeleteSelf? ==> !s.kernel.Live(ev.wd)
    requires [] in s.kernel.dirs && (PicksUp(ev) ==> AllBelow(EventPath(s.table[ev.wd], ev), below))
    ensures var r := Dispatch(s, ev, below, steps);
            && Base(r, ds, q)
            && (q.owned ==> (Covered(r, q.location) <==> Covered(s, q.location) || Gives(s, ev, q.location)))
  {
    var e := s.table[ev.wd];
    var path := EventPath(e, ev);
    var found := BestMatch(e.watches, path);
    var s1 := HandleDirectories(s, ev, found, path, below, steps);
    if ev.kind.DeleteSelf? { DeletedStaysDead(s, ev, found, path, below, steps); }
    assert EntryOk(s.kernel, ev.wd, e.watches);
    hide Base, Covered, HandleContent, Inv, Reached, StartFor, RegularsStay;
    DirectoriesCover(s, ds, q, ev, below, steps);
    hide HandleDirectories;
    ContentCovers(s, s1, ds, q, ev, below);
  }

  /** After the event at the head of the queue has been handled the location is covered: by a guard that is still
      one without the event and is not taken along by the clean-up, or because the handling gives coverage. */
  ghost predicate Noticed(st: State, l: Path) {
    st.kernel.queue != [] &&
    var ev, s := st.kernel.queue[0], Dequeued(st);
    if ev.kind.Ignored? then exists x :: Guard(s, l, x) && !TakenAlong(s, ev.wd, x)
    else Covered(s, l) || Gives(s, ev, l)
  }

  /** Handling any event leaves the location covered exactly if it is noticed. */
  lemma HandleCoversExactly(st: State, ds: set<Adir>, q: Stake, below: seq<Path>, steps: nat)
    requires Inv(st) && Base(st, ds, q) && BelowEvent(st, below)
    ensures [] in st.kernel.dirs
    ensures var r := HandleEvent(st, below, steps);
            Base(r, ds, q) && (q.owned ==> (Covered(r, q.location) <==> Noticed(st, q.location)))
  {
    RootExists(st);
    var ev, s := st.kernel.queue[0], Dequeued(st);
    assert ev in st.kernel.queue;
    SameLive(st.kernel, s.kernel, ev.wd);
    DequeueBase(st, ds, q);
    DequeueInv(st);
    if ev.wd !in s.table {
      UnknownCovers(s, ds, q, ev, q.location);
    } else if ev.kind.Ignored? {
      IgnoredDispatch(s, ev, below, steps);
      IgnoredCovers(st, ds, q, q.location);
    } else {
      if PicksUp(ev) { ListedBelow(st.kernel.dirs, EventPath(s.table[ev.wd], ev), below); }
      hide Base, Inv, Covered, Gives, Dispatch;
      DispatchCovers(s, ds, q, ev, below, steps);
    }
  }

  lemma UnknownCovers(s: State, ds: set<Adir>, q: Stake, ev: Event, l: Path)
    requires Base(s, ds, q) && ev.wd !in s.table
    ensures var r := s.(kernel := s.kernel.RemoveWatch(ev.wd));
            && Base(r, ds, q) && (Covered(r, l) <==> Covered(s, l)) && !Gives(s, ev, l)
            && (Covered(s, l) <==> exists x :: Guard(s, l, x) && !TakenAlong(s, ev.wd, x))
  {
    RemoveUnknownBase(s, ds, q, ev.wd);
    RemoveWatchKeeps(s.kernel, ev.wd);
    var r := s.(kernel := s.kernel.RemoveWatch(ev.wd));
    assert OnlyIgnored(s.kernel.queue, r.kernel.queue) && s.kernel.queue <= r.kernel.queue;
    hide Kin, Kernel.WellFormed;
    if x :| Guard(s, l, x) {
      GuardStays(s, r, l, x);
      assert !TakenAlong(s, ev.wd, x);
    }
    if x :| Guard(r, l, x) { GuardWasThere(s, r, l, x); }
  }

  lemma IgnoredCovers(st: State, ds: set<Adir>, q: Stake, l: Path)
    requires Inv(st) && Base(st, ds, q) && st.kernel.queue != [] && st.kernel.queue[0].kind.Ignored?
    requires st.kernel.queue[0].wd in st.table
    ensures var wd, s := st.kernel.queue[0].wd, Dequeued(st);
            && Base(Forget(s, wd), ds, q)
            && (Covered(Forget(s, wd), l) <==> exists x :: Guard(s, l, x) && !TakenAlong(s, wd, x))
  {
    var wd, s := st.kernel.queue[0].wd, Dequeued(st);
    assert st.kernel.queue[0] in st.kernel.queue;
    SameLive(st.kernel, s.kernel, wd);
    DequeueBase(st, ds, q);
    DequeueInv(st);
    ForgetBase(s, ds, q, wd);
    if x :| Guard(s, l, x) && !TakenAlong(s, wd, x) {
      IgnoredIsOther(st, l, x);
      ForgetGuard(s, ds, q, wd, x, l);
    }
    if x :| Guard(Forget(s, wd), l, x) { ForgetAddsNoGuard(s, ds, q, wd, x, l); }
  }

  /** An entry whose IN_IGNORED is being handled is no guard. */
  lemma IgnoredIsOther(st: State, l: Path, x: int)
    requires QueueOk(st.kernel) && st.kernel.queue != [] && st.kernel.queue[0].kind.Ignored?
    requires Guard(Dequeued(st), l, x)
    ensures st.kernel.queue[0].wd != x
  {
    var q, s := st.kernel.queue, Dequeued(st);
    assert q[0] in q;
    SameLive(st.kernel, s.kernel, x);
    if DeleteSelfEvent(x) in q[1..] {
      var j :| 0 <= j < |q| - 1 && q[1..][j] == DeleteSelfEvent(x);
      assert q[j + 1] == DeleteSelfEvent(x);
    }
  }

  // ----- what can be told from the entry alone -----

  /** If the event at the head of the queue makes an entry be rechecked that waits for the location, then a watch
      that does is within reach. */
  ghost predicate ReachedAtHead(st: State, l: Path) {
    st.kernel.queue != [] ==>
      var ev, s := st.kernel.queue[0], Dequeued(st);
      Rechecks(ev) && ev.wd in s.table && MissingFor(s.table[ev.wd].watches, l) ==>
        Reached(s.kernel, ev.wd, s.table[ev.wd].watches, l)
  }

  /** With no location around it given up, that is all it takes to keep a location covered. */
  lemma ReachedIsNoticed(st: State, ds: set<Adir>, q: Stake)
    requires Base(st, ds, q) && q.sheltered && Covered(st, q.location) && st.kernel.queue != []
    requires ReachedAtHead(st, q.location)
    ensures Noticed(st, q.location)
  {
    var l, ev, s := q.location, st.kernel.queue[0], Dequeued(st);
    var x :| Guard(st, l, x);
    assert ev in st.kernel.queue;
    SameLive(st.kernel, s.kernel, ev.wd);
    DequeueBase(st, ds, q);
    hide Reached;
    DequeueGuard(st, l, x);
    if ev.kind.Ignored? { NotTakenAlong(s, ds, q, ev.wd, x); }
  }

  lemma NotTakenAlong(s: State, ds: set<Adir>, q: Stake, wd: int, x: int)
    requires Base(s, ds, q) && q.sheltered && Guard(s, q.location, x) && !s.kernel.Live(wd)
    ensures !TakenAlong(s, wd, x)
  {
    if TakenAlong(s, wd, x) {
      var w := DescendantsOfFor(s.table[wd].watches, s.descendants, x);
      OutlivesClear(s, ds, q, wd, w, x);
    }
  }

  lemma OutlivesClear(s: State, ds: set<Adir>, q: Stake, wd: int, w: Watch, x: int)
    requires Base(s, ds, q) && Registered(s.table, s.descendants, wd, w, x) && x in s.table
    requires s.kernel.Live(x) && !s.kernel.Live(wd)
    ensures Clear(q, s.table[x].path)
  {
    assert EntryFits(s.kernel, ds, x, s.table[x]);
  }

  /** An entry that waits for no other location reaches this one. */
  lemma AloneIsReached(st: State, l: Path)
    requires [] in st.kernel.dirs
    requires st.kernel.queue != [] && st.kernel.queue[0].wd in st.table ==>
               forall w :: w in st.table[st.kernel.queue[0].wd].watches && w.Missing() ==> w.adir.location == l
    ensures ReachedAtHead(st, l)
  {
    if st.kernel.queue != [] {
      var ev, s := st.kernel.queue[0], Dequeued(st);
      if ev.wd in s.table && MissingFor(s.table[ev.wd].watches, l) {
        OnlyOneReached(s.kernel, ev.wd, s.table[ev.wd].watches, l);
      }
    }
  }

  // ----- tree changes -----

  lemma MkdirGuard(st: State, ds: set<Adir>, q: Stake, p: Path, l: Path, x: int)
    requires Base(st, ds, q) && Guard(st, l, x) && CanMkdir(st.kernel, p)
    ensures Guard(st.(kernel := Mkdir(st.kernel, p)), l, x)
  {
    var k, k' := st.kernel, Mkdir(st.kernel, p);
    SameLive(k, k', x);
    var path := st.table[x].path;
    assert EntryFits(k, ds, x, st.table[x]);
    hide QueueOk;
    if k.Live(x) && path < l && l[..|path| + 1] == p {
      LiveAtHome(k, x);
      assert Parent(p) == path;
      assert ParentEvents(k, p, Create)[0] in k'.queue;
      assert CreatePending(k'.queue, x);
    }
  }

  lemma MkdirCovers(st: State, ds: set<Adir>, q: Stake, p: Path, l: Path)
    requires Base(st, ds, q) && CanMkdir(st.kernel, p)
    ensures var r := st.(kernel := Mkdir(st.kernel, p));
            Base(r, ds, q) && (Covered(st, l) ==> Covered(r, l))
  {
    MkdirKernel(st.kernel, p);
    forall x ensures Mkdir(st.kernel, p).Live(x) <==> st.kernel.Live(x) { SameLive(st.kernel, Mkdir(st.kernel, p), x); }
    TreeStepBase(st, ds, q, Mkdir(st.kernel, p));
    hide OnlyFor, Guard;
    if x :| Guard(st, l, x) { MkdirGuard(st, ds, q, p, l, x); }
  }

  lemma RmdirGuard(st: State, r: State, ds: set<Adir>, q: Stake, p: Path, selfFirst: bool, l: Path, x: int)
    requires Base(st, ds, q) && Guard(st, l, x) && CanRmdir(st.kernel, p)
    requires r == st.(kernel := Rmdir(st.kernel, p, selfFirst))
    ensures Guard(r, l, x)
  {
    var k, k' := st.kernel, r.kernel;
    RmdirKernel(k, p, selfFirst);
    assert EntryFits(k, ds, x, st.table[x]);
    hide Rmdir, OnlyFor, QueueOk, AtHome;
    if CreatePending(k.queue, x) {
      var ev :| ev in k.queue && ev.wd == x && ev.kind.Create? && ev.isDir;
      assert ev in k'.queue;
    }
  }

  lemma RmdirCovers(st: State, ds: set<Adir>, q: Stake, p: Path, selfFirst: bool, l: Path)
    requires Base(st, ds, q) && CanRmdir(st.kernel, p)
    ensures var r := st.(kernel := Rmdir(st.kernel, p, selfFirst));
            Base(r, ds, q) && (Covered(st, l) ==> Covered(r, l))
  {
    var k' := Rmdir(st.kernel, p, selfFirst);
    RmdirKernel(st.kernel, p, selfFirst);
    RmdirMourned(st, ds, q, p, selfFirst);
    TreeStepBase(st, ds, q, k');
    hide OnlyFor, Guard;
    if x :| Guard(st, l, x) { RmdirGuard(st, st.(kernel := k'), ds, q, p, selfFirst, l, x); }
  }

  lemma FileEventCovers(st: State, ds: set<Adir>, q: Stake, ev: Event, l: Path)
    requires Base(st, ds, q) && FileEvent(ev) && st.kernel.Live(ev.wd)
    ensures var r := st.(kernel := st.kernel.(queue := st.kernel.queue + [ev]));
            Base(r, ds, q) && (Covered(st, l) ==> Covered(r, l))
  {
    FileEventBase(st, ds, q, ev);
    hide OnlyFor, Guard;
    if x :| Guard(st, l, x) { FileEventGuard(st, l, ev, x); }
  }

  lemma FileEventGuard(st: State, l: Path, ev: Event, x: int)
    requires Guard(st, l, x)
    ensures Guard(st.(kernel := st.kernel.(queue := st.kernel.queue + [ev])), l, x)
  {
    var k, k' := st.kernel, st.kernel.(queue := st.kernel.queue + [ev]);
    SameLive(k, k', x);
    assert CreatePending(k.queue, x) ==> CreatePending(k'.queue, x);
    hide Kernel.Live;
  }

  // ----- requests -----

  /** A request for a persistent directory covers its location, and any request keeps the coverage of all. */
  lemma MonitorRequestCovers(st: State, ds: set<Adir>, q: Stake, f: Adir, below: seq<Path>)
    requires Inv(st) && Base(st, ds, q) && f in ds && (f.recursive ==> AllBelow(f.location, below))
    requires q.owned && f.location == q.location ==> f.persistent
    ensures [] in st.kernel.dirs
    ensures var r := MonitorRequest(st, f, below);
            && Base(r, ds, q)
            && (q.owned && (Covered(st, q.location) || f.location == q.location) ==> Covered(r, q.location))
  {
    RootExists(st);
    hide Inv, Kin, OnlyFor, Covered, MonitorExisting, MonitorNonexisting;
    var s := MonitorDirectory(st, f.location, f, f.location, true, None);
    if f.location in st.kernel.dirs {
      MonitorBase(st, ds, q, f, f.location, true, None);
      if q.owned && f.location == q.location { StartCovers(st, ds, q, f); }
      if Covered(st, q.location) { MonitorCovered(st, ds, f, f.location, true, None, q.location); }
    } else if f.persistent {
      MonitorNonexistingCovers(st, ds, q, f, s);
    }
    hide Base, MonitorDirectory;
    if f.recursive { MonitorEachCovers(s, ds, q, f, below, q.location); }
  }

  // ----- releases -----

  lemma UnmonitorKinds(st: State, p: Path, f: Adir, l: Path, x: int, r: State)
    requires Inv(st) && x in st.table && f.location != l && r == UnmonitorDirectory(st, p, f)
    requires MissingFor(st.table[x].watches, l) || StartFor(st.table[x].watches, l)
    ensures x in r.table && (r.kernel.Live(x) <==> st.kernel.Live(x))
    ensures MissingFor(st.table[x].watches, l) ==> MissingFor(r.table[x].watches, l)
    ensures StartFor(st.table[x].watches, l) ==> StartFor(r.table[x].watches, l)
  {
    hide UnmonitorDirectory, Inv;
    UnmonitorAt(st, p, f, x);
    if w :| w in st.table[x].watches && WaitsFor(w, l) {
      UnmonitorKeepsOthers(st, p, f, x, w);
      assert w in multiset(r.table[x].watches);
    }
    if w :| w in st.table[x].watches && StartsFor(w, l) {
      UnmonitorKeepsOthers(st, p, f, x, w);
      assert w in multiset(r.table[x].watches);
    }
  }

  lemma UnmonitorQueue(st: State, p: Path, f: Adir)
    ensures var r := UnmonitorDirectory(st, p, f);
            && st.kernel.queue <= r.kernel.queue && r.kernel.dirs == st.kernel.dirs
            && (forall x :: x in st.table ==> x in r.table && r.table[x].path == st.table[x].path)
  {
  }

  /** Unmonitoring another location leaves a guard in place. */
  lemma UnmonitorGuard(st: State, p: Path, f: Adir, l: Path, x: int)
    requires Inv(st) && f.location != l && Guard(st, l, x)
    ensures Guard(UnmonitorDirectory(st, p, f), l, x)
  {
    hide UnmonitorDirectory, Inv;
    var r := UnmonitorDirectory(st, p, f);
    UnmonitorQueue(st, p, f);
    UnmonitorKinds(st, p, f, l, x, r);
    GuardStays(st, r, l, x);
  }

  lemma {:induction false} UnmonitorEachCovers(st: State, ds: set<Adir>, q: Stake, ps: seq<Path>, f: Adir, l: Path)
    requires Inv(st) && Base(st, ds, q) && Releasable(ds, q, f)
    ensures var r := UnmonitorEach(st, ps, f);
            Base(r, ds, q) && (f.location != l && Covered(st, l) ==> Covered(r, l))
    decreases |ps|
  {
    if ps != [] {
      hide UnmonitorDirectory, Base, Guard, Agree, Releasable;
      var s := UnmonitorDirectory(st, ps[0], f);
      UnmonitorBase(st, ds, q, ps[0], f);
      UnmonitorDirectoryInv(st, ps[0], f);
      if f.location != l {
        if x :| Guard(st, l, x) { UnmonitorGuard(st, ps[0], f, l, x); }
      }
      UnmonitorEachCovers(s, ds, q, ps[1..], f, l);
    }
  }

  /** Giving up a location ends the coverage of no other. */
  lemma UnmonitorRequestCovers(st: State, ds: set<Adir>, q: Stake, f: Adir, below: seq<Path>, l: Path)
    requires Inv(st) && Base(st, ds, q) && Releasable(ds, q, f)
    ensures var r := UnmonitorRequest(st, f, below);
            Base(r, ds, q) && (f.location != l && Covered(st, l) ==> Covered(r, l))
  {
    var all := [f.location] + below;
    assert all[1..] == below && [f.location][1..] == [];
    UnmonitorEachCovers(st, ds, q, all, f, l);
    UnmonitorEachCovers(st, ds, q, [f.location], f, l);
    hide UnmonitorDirectory, Base, Covered, Agree, Releasable;
    assert UnmonitorEach(UnmonitorDirectory(st, f.location, f), [], f) == UnmonitorDirectory(st, f.location, f);
  }

  // ----- a drained queue -----

  /** The deepest existing directory on the path is watched by a live entry, with the start-point watch if
      that is the whole path and with a watch for the missing path otherwise. */
  ghost predicate Watched(k: Kernel, t: Table, l: Path) {
    [] in k.dirs &&
    var m := Deepest(k.dirs, l);
    var x := WatchOf(k, l[..m]);
    && x in t && k.Live(x)
    && (if m == |l| then exists w :: w in t[x].watches && StartsFor(w, l)
        else exists w :: w in t[x].watches && WaitsFor(w, l) && w.nonexisting.value.comps == l)
  }

  /** With nothing left to handle, covered is watched. */
  lemma CoveredIsWatched(st: State, ds: set<Adir>, q: Stake, l: Path)
    requires Base(st, ds, q) && st.kernel.queue == []
    ensures Covered(st, l) <==> Watched(st.kernel, st.table, l)
  {
    var k, t := st.kernel, st.table;
    assert l[..|l|] == l;
    if x :| Guard(st, l, x) { GuardIsWatch(st, ds, q, l, x); }
    if Watched(k, t, l) {
      var m := Deepest(k.dirs, l);
      var x := WatchOf(k, l[..m]);
      WatchIsGuard(st, ds, q, l, m, x);
    }
  }

  lemma GuardIsWatch(st: State, ds: set<Adir>, q: Stake, l: Path, x: int)
    requires Base(st, ds, q) && Guard(st, l, x) && st.kernel.queue == []
    ensures Watched(st.kernel, st.table, l)
  {
    var k, t := st.kernel, st.table;
    assert EntryFits(k, ds, x, t[x]);
    LiveAtHome(k, x);
    var path := t[x].path;
    assert l[..|l|] == l;
    if path == l {
      var w :| w in t[x].watches && StartsFor(w, l);
    } else {
      assert l[..|path|] == path;
      NextMissing(k, l, |path|);
      var w :| w in t[x].watches && WaitsFor(w, l);
      assert WatchFits(ds, path, w);
    }
  }

  lemma WatchIsGuard(st: State, ds: set<Adir>, q: Stake, l: Path, m: nat, x: int)
    requires Base(st, ds, q) && Watched(st.kernel, st.table, l)
    requires m == Deepest(st.kernel.dirs, l) && x == WatchOf(st.kernel, l[..m])
    ensures Guard(st, l, x)
  {
    var k, t := st.kernel, st.table;
    HomeOf(k, l[..m]);
    assert EntryFits(k, ds, x, t[x]);
    assert l[..|l|] == l && (m < |l| ==> l[..m] < l);
  }

  /** Nothing below a missing component exists. */
  lemma NextMissing(k: Kernel, l: Path, n: nat)
    requires k.WellFormed() && n < |l| && l[..n] in k.dirs && l[..n + 1] !in k.dirs
    ensures Deepest(k.dirs, l) == n
  {
    var m := Deepest(k.dirs, l);
    if m > n {
      assert l[..m][..n + 1] == l[..n + 1];
      PrefixesExist(k, l[..m], n + 1);
    }
  }
}
