/**
 What handling an event comes to, with renames or without: which directories a new directory brings into
 the table, what becomes of a descriptor that moved or went, and what a move watch found by
 checkMoveWatches leads to.
 */
module WatchEvents {
  import opened Wrappers
  import opened InotifyKernel
  import opened WatchTable
  import opened WatchInvariant
  import opened WatchEffects
  import opened WatchCleanup
  import opened TreeSteps
  import opened WatchPersistence

  // ----- a tree is monitored -----

  /** The directory now at q has a live descriptor whose entry holds a regular watch for the location. */
  ghost predicate WatchedFor(st: State, q: Path, location: Path) {
    var x := WatchOf(st.kernel, q);
    x in st.table && st.kernel.Live(x) && HasRegular(st.table[x].watches, location)
  }

  lemma MonitorWatches(st: State, p: Path, adir: Adir, norm: Path, startPoint: bool)
    requires Inv(st) && p in st.kernel.dirs
    ensures WatchedFor(MonitorExisting(st, p, adir, norm, startPoint, None), p, adir.location)
  {
    var r := MonitorExisting(st, p, adir, norm, startPoint, None);
    MonitorExistingAt(st, p, adir, norm, startPoint, None, 1);
    hide MonitorExisting, Inv, PathEffect, MoveEffect;
    var x, own := WatchOf(r.kernel, p), AutoscanWatch(st.nextId, startPoint, adir, norm, None);
    LiveHere(r.kernel, p);
    if WatchesAt(r, x) == WatchesAt(st, x) + [own] {
      assert own in r.table[x].watches && Matches(RegularFor(adir.location), own);
    }
  }

  lemma LiveHere(k: Kernel, p: Path)
    requires WatchOf(k, p) >= 1
    ensures k.Live(WatchOf(k, p))
  {
  }

  lemma MonitorKeepsWatched(st: State, p: Path, adir: Adir, norm: Path, startPoint: bool, missing: Option<PathArray>,
                            q: Path, location: Path)
    requires Inv(st) && p in st.kernel.dirs && WatchedFor(st, q, location)
    ensures WatchedFor(MonitorExisting(st, p, adir, norm, startPoint, missing), q, location)
  {
    var x := WatchOf(st.kernel, q);
    assert EntryOk(st.kernel, x, st.table[x].watches);
    var r := MonitorExisting(st, p, adir, norm, startPoint, missing);
    MonitorExistingAt(st, p, adir, norm, startPoint, missing, x);
    hide MonitorExisting, Inv;
    assert WatchOf(r.kernel, q) == x;
    LiveHere(r.kernel, q);
    assert WatchesAt(st, x) <= WatchesAt(r, x);
    var w :| w in st.table[x].watches && Matches(RegularFor(location), w);
    assert w in r.table[x].watches;
  }

  lemma {:induction false} MonitorEachKeeps(st: State, ps: seq<Path>, adir: Adir, norm: Path, q: Path, location: Path)
    requires Inv(st) && [] in st.kernel.dirs && (forall p :: p in ps ==> p in st.kernel.dirs)
    requires WatchedFor(st, q, location)
    ensures WatchedFor(MonitorEach(st, ps, adir, norm), q, location)
    decreases |ps|
  {
    if ps != [] {
      hide WatchedFor, Inv, MonitorExisting;
      MonitorKeepsWatched(st, ps[0], adir, norm, false, None, q, location);
      MonitorDirectoryInv(st, ps[0], adir, norm, false, None);
      MonitorEachKeeps(MonitorDirectory(st, ps[0], adir, norm, false, None), ps[1..], adir, norm, q, location);
    }
  }

  lemma {:induction false} MonitorEachWatches(st: State, ps: seq<Path>, adir: Adir, norm: Path, q: Path)
    requires Inv(st) && [] in st.kernel.dirs && (forall p :: p in ps ==> p in st.kernel.dirs) && q in ps
    ensures WatchedFor(MonitorEach(st, ps, adir, norm), q, adir.location)
    decreases |ps|
  {
    hide WatchedFor, Inv, MonitorExisting;
    var s := MonitorDirectory(st, ps[0], adir, norm, false, None);
    MonitorDirectoryInv(st, ps[0], adir, norm, false, None);
    if q == ps[0] {
      MonitorWatches(st, q, adir, norm, false);
      MonitorEachKeeps(s, ps[1..], adir, norm, q, adir.location);
    } else {
      MonitorEachWatches(s, ps[1..], adir, norm, q);
    }
  }

  /** Monitoring a tree watches the directory and every one inside it for the location. */
  lemma TreeIsWatched(st: State, p: Path, adir: Adir, norm: Path, startPoint: bool, below: seq<Path>)
    requires Inv(st) && [] in st.kernel.dirs && Listing(st.kernel.dirs, p, below)
    ensures var r := MonitorRecursive(st, p, adir, norm, startPoint, below);
            p in st.kernel.dirs ==> forall q :: q in st.kernel.dirs && p <= q ==> WatchedFor(r, q, adir.location)
  {
    if p in st.kernel.dirs {
      hide WatchedFor, Inv, MonitorExisting, MonitorEach;
      var s := MonitorDirectory(st, p, adir, norm, startPoint, None);
      MonitorWatches(st, p, adir, norm, startPoint);
      MonitorDirectoryInv(st, p, adir, norm, startPoint, None);
      forall q | q in st.kernel.dirs && p <= q
        ensures WatchedFor(MonitorRecursive(st, p, adir, norm, startPoint, below), q, adir.location)
      {
        if q == p {
          MonitorEachKeeps(s, below, adir, norm, p, adir.location);
        } else {
          assert p < q && q in below;
          MonitorEachWatches(s, below, adir, norm, q);
        }
      }
    }
  }

  /** Every regular watch is an old one in its place, or one for adir on a directory of ps. */
  ghost predicate OnlyNewFor(st: State, r: State, adir: Adir, norm: Path, ps: seq<Path>) {
    && (forall q :: WatchOf(st.kernel, q) >= 1 ==> WatchOf(r.kernel, q) == WatchOf(st.kernel, q))
    && (forall x, w :: x in r.table && w in r.table[x].watches && w.Regular() ==>
          || w in WatchesAt(st, x)
          || (w.adir == adir && w.normPath == norm && exists i :: 0 <= i < |ps| && WatchOf(r.kernel, ps[i]) == x))
  }

  lemma MonitorOnlyNew(st: State, p: Path, adir: Adir, norm: Path)
    requires Inv(st) && p in st.kernel.dirs
    ensures OnlyNewFor(st, MonitorExisting(st, p, adir, norm, false, None), adir, norm, [p])
  {
    var r := MonitorExisting(st, p, adir, norm, false, None);
    MonitorExistingInv(st, p, adir, norm, false, None);
    hide MonitorExisting, Agree;
    forall x | x in r.table
      ensures forall w :: w in r.table[x].watches && w.Regular() ==>
                            w in WatchesAt(st, x) || (w.adir == adir && w.normPath == norm && WatchOf(r.kernel, p) == x)
    {
      MonitorNewAt(st, p, adir, norm, r, x);
    }
    SameDescriptors(st, p, adir, norm);
    assert [p][0] == p;
  }

  lemma MonitorNewAt(st: State, p: Path, adir: Adir, norm: Path, r: State, x: int)
    requires Inv(st) && Inv(r) && p in st.kernel.dirs && x in r.table
    requires r == MonitorExisting(st, p, adir, norm, false, None)
    ensures forall w :: w in r.table[x].watches && w.Regular() ==>
                          w in WatchesAt(st, x) || (w.adir == adir && w.normPath == norm && WatchOf(r.kernel, p) == x)
  {
    assert EntryOk(r.kernel, x, r.table[x].watches);
    MonitorExistingAt(st, p, adir, norm, false, None, x);
    hide MonitorExisting, Inv, Extends, PathEffect;
  }

  lemma SameDescriptors(st: State, p: Path, adir: Adir, norm: Path)
    requires Inv(st) && p in st.kernel.dirs
    ensures var r := MonitorExisting(st, p, adir, norm, false, None);
            forall q :: WatchOf(st.kernel, q) >= 1 ==> WatchOf(r.kernel, q) == WatchOf(st.kernel, q)
  {
    MonitorExistingAt(st, p, adir, norm, false, None, 1);
    hide MonitorExisting, Inv;
  }

  lemma OnlyNewTrans(st: State, s: State, r: State, adir: Adir, norm: Path, p: Path, ps: seq<Path>)
    requires OnlyNewFor(st, s, adir, norm, [p]) && OnlyNewFor(s, r, adir, norm, ps) && Inv(s)
    ensures OnlyNewFor(st, r, adir, norm, [p] + ps)
  {
    var all := [p] + ps;
    forall x, w | x in r.table && w in r.table[x].watches && w.Regular() && w !in WatchesAt(st, x)
      ensures w.adir == adir && w.normPath == norm && exists i :: 0 <= i < |all| && WatchOf(r.kernel, all[i]) == x
    {
      if w in WatchesAt(s, x) {
        assert EntryOk(s.kernel, x, s.table[x].watches);
        assert WatchOf(r.kernel, all[0]) == x;
      } else {
        var i :| 0 <= i < |ps| && WatchOf(r.kernel, ps[i]) == x;
        assert all[i + 1] == ps[i];
      }
    }
  }

  lemma OneOnlyNew(st: State, p: Path, adir: Adir, norm: Path)
    requires Inv(st) && [] in st.kernel.dirs && p in st.kernel.dirs
    ensures var s := MonitorDirectory(st, p, adir, norm, false, None);
            Inv(s) && s.kernel.dirs == st.kernel.dirs && OnlyNewFor(st, s, adir, norm, [p])
  {
    hide OnlyNewFor, Inv, MonitorExisting;
    MonitorOnlyNew(st, p, adir, norm);
    MonitorDirectoryInv(st, p, adir, norm, false, None);
  }

  lemma NothingNew(st: State, adir: Adir, norm: Path)
    ensures OnlyNewFor(st, st, adir, norm, [])
  {
  }

  lemma {:induction false} MonitorEachOnlyNew(st: State, ps: seq<Path>, adir: Adir, norm: Path)
    requires Inv(st) && [] in st.kernel.dirs && (forall p :: p in ps ==> p in st.kernel.dirs)
    ensures OnlyNewFor(st, MonitorEach(st, ps, adir, norm), adir, norm, ps)
    decreases |ps|
  {
    hide OnlyNewFor, Inv, MonitorDirectory;
    if ps == [] {
      NothingNew(st, adir, norm);
    } else {
      var s := MonitorDirectory(st, ps[0], adir, norm, false, None);
      OneOnlyNew(st, ps[0], adir, norm);
      MonitorEachOnlyNew(s, ps[1..], adir, norm);
      var r := MonitorEach(st, ps, adir, norm);
      assert r == MonitorEach(s, ps[1..], adir, norm);
      hide MonitorEach;
      OnlyNewTrans(st, s, r, adir, norm, ps[0], ps[1..]);
      assert [ps[0]] + ps[1..] == ps;
    }
  }

  lemma TreeOnlyNew(st: State, p: Path, adir: Adir, norm: Path, below: seq<Path>)
    requires Inv(st) && [] in st.kernel.dirs && Listing(st.kernel.dirs, p, below)
    ensures var r := MonitorRecursive(st, p, adir, norm, false, below);
            if p in st.kernel.dirs then OnlyNewFor(st, r, adir, norm, [p] + below) else r == st
  {
    if p in st.kernel.dirs {
      MonitorEachOnlyNew(st, [p] + below, adir, norm);
      hide OnlyNewFor, Inv, MonitorExisting;
      assert ([p] + below)[1..] == below;
    }
  }

  // ----- requests and releases -----

  /** The directories a request or a release is about: the location, and for a recursive one all inside it. */
  predicate Concerns(f: Adir, q: Path) {
    q == f.location || (f.recursive && f.location < q)
  }

  /** The location's entry holds a start point of it. */
  ghost predicate StartedAt(st: State, l: Path) {
    var x := WatchOf(st.kernel, l);
    x in st.table && StartsAt(st.table[x].watches, l)
  }

  /** A request watches every directory it is about for the location, and the location itself as a start point unless
      it had a regular watch for it before. */
  lemma RequestWatches(st: State, f: Adir, below: seq<Path>)
    requires Inv(st) && f.location in st.kernel.dirs && (f.recursive ==> Listing(st.kernel.dirs, f.location, below))
    ensures [] in st.kernel.dirs
    ensures var r := MonitorRequest(st, f, below);
            && (forall q :: q in st.kernel.dirs && Concerns(f, q) ==> WatchedFor(r, q, f.location))
            && (!WatchedFor(st, f.location, f.location) ==> StartedAt(r, f.location))
  {
    RootExists(st);
    var s := MonitorExisting(st, f.location, f, f.location, true, None);
    MonitorWatches(st, f.location, f, f.location, true);
    MonitorExistingInv(st, f.location, f, f.location, true, None);
    if !WatchedFor(st, f.location, f.location) { RequestStarts(st, f); }
    hide Inv, WatchedFor, StartedAt, MonitorExisting, MonitorEach;
    if f.recursive {
      TreeIsWatched(st, f.location, f, f.location, true, below);
      EachKeepsStart(s, below, f, f.location);
    }
  }

  lemma RequestStarts(st: State, f: Adir)
    requires Inv(st) && f.location in st.kernel.dirs && !WatchedFor(st, f.location, f.location)
    ensures StartedAt(MonitorExisting(st, f.location, f, f.location, true, None), f.location)
  {
    var l := f.location;
    var r := MonitorExisting(st, l, f, l, true, None);
    MonitorStarts(st, l, f, l, r);
    MonitorExistingAt(st, l, f, l, true, None, 1);
    hide MonitorExisting, Inv;
    var x, own := WatchOf(r.kernel, l), AutoscanWatch(st.nextId, true, f, l, None);
    if WatchOf(st.kernel, l) >= 1 { LiveHere(st.kernel, l); }
    NoRegularBefore(st, r, l, x);
    assert own in r.table[x].watches;
  }

  lemma NoRegularBefore(st: State, r: State, l: Path, x: int)
    requires Inv(st) && !WatchedFor(st, l, l) && Extends(st.kernel, r.kernel) && WatchOf(r.kernel, l) == x >= 1
    ensures !HasRegular(WatchesAt(st, x), l)
  {
    if x in st.table {
      assert EntryOk(st.kernel, x, st.table[x].watches);
      assert WatchOf(st.kernel, l) == x;
      LiveHere(st.kernel, l);
    }
  }

  lemma {:induction false} EachKeepsStart(st: State, ps: seq<Path>, adir: Adir, norm: Path)
    requires Inv(st) && [] in st.kernel.dirs && (forall p :: p in ps ==> p in st.kernel.dirs)
    ensures StartedAt(st, adir.location) ==> StartedAt(MonitorEach(st, ps, adir, norm), adir.location)
    decreases |ps|
  {
    if ps != [] {
      hide StartedAt, Inv, MonitorExisting;
      OneKeepsStart(st, ps[0], adir, norm);
      MonitorDirectoryInv(st, ps[0], adir, norm, false, None);
      EachKeepsStart(MonitorDirectory(st, ps[0], adir, norm, false, None), ps[1..], adir, norm);
    }
  }

  lemma OneKeepsStart(st: State, p: Path, adir: Adir, norm: Path)
    requires Inv(st) && p in st.kernel.dirs
    ensures StartedAt(st, adir.location) ==> StartedAt(MonitorExisting(st, p, adir, norm, false, None), adir.location)
  {
    if StartedAt(st, adir.location) {
      var x := WatchOf(st.kernel, adir.location);
      assert EntryOk(st.kernel, x, st.table[x].watches);
      var r := MonitorExisting(st, p, adir, norm, false, None);
      MonitorExistingAt(st, p, adir, norm, false, None, x);
      hide MonitorExisting, Inv;
      assert WatchesAt(st, x) <= WatchesAt(r, x);
      var w :| w in st.table[x].watches && Matches(RegularFor(adir.location), w) && w.startPoint;
      assert w in r.table[x].watches;
    }
  }

  /** Unmonitoring adds no watch and brings no entry back to life. */
  lemma UnmonitorUnwatched(st: State, p: Path, f: Adir, q: Path, location: Path)
    requires Inv(st) && !WatchedFor(st, q, location)
    ensures !WatchedFor(UnmonitorDirectory(st, p, f), q, location)
  {
    var (k, wd) := st.kernel.AddWatch(p);
    AddWatchKeeps(st.kernel, p);
    var r := UnmonitorDirectory(st, p, f);
    UnmonitorCases(st, p, f);
    var x := WatchOf(r.kernel, q);
    if x in st.table {
      assert EntryOk(st.kernel, x, st.table[x].watches);
      if r != st.(kernel := k) {
        var i :| 0 <= i < |st.table[wd].watches| && r == DropWatch(st.(kernel := k), wd, i);
        OthersStay(st.table[wd].watches, i);
        RemoveWatchOf(k, wd, q);
      }
      assert forall w :: w in r.table[x].watches ==> w in st.table[x].watches;
      AddWatchOf(st.kernel, p, q);
      if WatchOf(st.kernel, q) >= 1 { LiveHere(st.kernel, q); }
    }
  }

  lemma UnmonitorUnwatches(st: State, p: Path, f: Adir)
    requires Inv(st)
    ensures !WatchedFor(UnmonitorDirectory(st, p, f), p, f.location)
  {
    UnmonitorCases(st, p, f);
    AddWatchOf(st.kernel, p, p);
    var (k, wd) := st.kernel.AddWatch(p);
    var r := UnmonitorDirectory(st, p, f);
    var x := WatchOf(r.kernel, p);
    if x in st.table {
      assert EntryOk(st.kernel, x, st.table[x].watches);
      UnmonitorAt(st, p, f, x);
      hide UnmonitorDirectory, Inv;
      if r != st.(kernel := k) { RemoveWatchOf(k, wd, p); }
    }
  }

  lemma {:induction false} EachUnwatches(st: State, ps: seq<Path>, f: Adir, q: Path)
    requires Inv(st) && (q in ps || !WatchedFor(st, q, f.location))
    ensures !WatchedFor(UnmonitorEach(st, ps, f), q, f.location)
    decreases |ps|
  {
    if ps != [] {
      hide WatchedFor, Inv, UnmonitorDirectory;
      var s := UnmonitorDirectory(st, ps[0], f);
      UnmonitorDirectoryInv(st, ps[0], f);
      if q == ps[0] { UnmonitorUnwatches(st, q, f); }
      if !WatchedFor(st, q, f.location) { UnmonitorUnwatched(st, ps[0], f, q, f.location); }
      EachUnwatches(s, ps[1..], f, q);
    }
  }

  /** A release leaves none of the directories it is about watched for the location. */
  lemma ReleaseUnwatches(st: State, f: Adir, below: seq<Path>, q: Path)
    requires Inv(st) && (f.recursive ==> Listing(st.kernel.dirs, f.location, below))
    requires q in st.kernel.dirs && Concerns(f, q)
    ensures !WatchedFor(UnmonitorRequest(st, f, below), q, f.location)
  {
    hide WatchedFor, Inv, UnmonitorDirectory;
    if f.recursive {
      EachUnwatches(st, [f.location] + below, f, q);
      assert ([f.location] + below)[1..] == below;
    } else {
      UnmonitorUnwatches(st, f.location, f);
    }
  }

  // ----- directories that come -----

  /** The event brings a directory that is to be monitored for the location found: one created below a recursive
      location, and not hidden from it, or one moved in or closed after writing. */
  predicate Brings(ev: Event, found: Option<Watch>) {
    && found.Some? && found.value.AutoscanWatch? && ev.isDir
    && (|| (ev.kind == Create && found.value.adir.recursive
            && (found.value.adir.hidden || ev.name == "" || ev.name[0] != '.'))
        || ev.kind == MovedTo || ev.kind == CloseWrite)
  }

  /** The state before a new directory is monitored: the event is off the queue, and its entry rechecked if a
      directory was created or moved in. */
  function Rechecked(st: State): (r: State)
    requires st.kernel.queue != [] && [] in st.kernel.dirs && st.kernel.queue[0].wd in st.table
    ensures st.table.Keys <= r.table.Keys && r.kernel.dirs == st.kernel.dirs
  {
    var ev, s := st.kernel.queue[0], Dequeued(st);
    if ev.isDir && (ev.kind == Create || ev.kind == MovedTo) then RecheckNonexistingMonitors(s, ev.wd) else s
  }

  /** The events that are neither about the watched directory itself nor IN_IGNORED monitor the tree they bring, and
      do nothing else but a recheck. */
  lemma ComingHandled(st: State, below: seq<Path>, steps: nat)
    requires st.kernel.queue != [] && [] in st.kernel.dirs && st.kernel.queue[0].wd in st.table
    requires !SelfKind(st.kernel.queue[0].kind) && st.kernel.queue[0].kind != Ignored
    ensures var ev := st.kernel.queue[0];
            var path := st.table[ev.wd].path + [ev.name];
            var found := BestMatch(st.table[ev.wd].watches, path);
            HandleEvent(st, below, steps) ==
            if Brings(ev, found)
            then MonitorRecursive(Rechecked(st), path, found.value.adir, found.value.normPath, false, below)
            else Rechecked(st)
  {
    var ev := st.kernel.queue[0];
    assert "." <= ev.name <==> ev.name != "" && ev.name[0] == '.';
    hide RecheckNonexistingMonitors, MonitorRecursive, BestMatch, CheckMoves;
  }

  lemma RecheckedInv(st: State)
    requires Inv(st) && st.kernel.queue != [] && st.kernel.queue[0].wd in st.table && st.kernel.queue[0].kind != Ignored
    ensures [] in st.kernel.dirs && Inv(Rechecked(st))
  {
    hide Agree, RecheckFrom;
    RootExists(st);
    DequeueInv(st);
    var s, wd := Dequeued(st), st.kernel.queue[0].wd;
    RecheckFromInv(s, wd, 0, |s.table[wd].watches|);
  }

  /** A directory that an event brings is watched afterwards, with every directory inside it, for the location
      that the event's path belongs to; and no other directory gains a regular watch but by the recheck. */
  lemma NewDirectoryWatched(st: State, below: seq<Path>, steps: nat)
    requires Inv(st) && BelowEvent(st, below) && st.kernel.queue[0].wd in st.table
    requires !SelfKind(st.kernel.queue[0].kind) && st.kernel.queue[0].kind != Ignored
    ensures [] in st.kernel.dirs
    ensures var ev, r := st.kernel.queue[0], HandleEvent(st, below, steps);
            var path := st.table[ev.wd].path + [ev.name];
            var found := BestMatch(st.table[ev.wd].watches, path);
            if Brings(ev, found) && path in st.kernel.dirs then
              && (forall q :: q in st.kernel.dirs && path <= q ==> WatchedFor(r, q, found.value.adir.location))
              && OnlyNewFor(Rechecked(st), r, found.value.adir, found.value.normPath, [path] + below)
            else r == Rechecked(st)
  {
    RecheckedInv(st);
    ComingHandled(st, below, steps);
    var ev, s := st.kernel.queue[0], Rechecked(st);
    var path := st.table[ev.wd].path + [ev.name];
    var found := BestMatch(st.table[ev.wd].watches, path);
    hide Inv, HandleEvent, Rechecked, BestMatch, WatchedFor, OnlyNewFor, MonitorRecursive;
    if Brings(ev, found) {
      TreeIsWatched(s, path, found.value.adir, found.value.normPath, false, below);
      TreeOnlyNew(s, path, found.value.adir, found.value.normPath, below);
    }
  }

  // ----- descriptors that go -----

  /** A descriptor that is not live and never will be again. */
  ghost predicate Gone(k: Kernel, x: int) {
    !k.Live(x) && x < k.nextWd
  }

  lemma GoneMonitor(st: State, p: Path, adir: Adir, norm: Path, startPoint: bool, missing: Option<PathArray>, x: int)
    requires st.kernel.WellFormed() && p in st.kernel.dirs && Gone(st.kernel, x)
    ensures Gone(MonitorExisting(st, p, adir, norm, startPoint, missing).kernel, x)
  {
    var r := MonitorExisting(st, p, adir, norm, startPoint, missing);
    MonitorExistingAt(st, p, adir, norm, startPoint, missing, 1);
    hide MonitorExisting;
    if r.kernel.Live(x) { ExtendsLiveBack(st.kernel, r.kernel, x); }
  }

  lemma GoneRecheck(st: State, curWd: int, arr: PathArray, adir: Adir, norm: Path, x: int)
    requires Inv(st) && (curWd != -1 ==> curWd in st.table) && [] in st.kernel.dirs && Gone(st.kernel, x)
    ensures Gone(RecheckNonexistingMonitor(st, curWd, arr, adir, norm).kernel, x)
  {
    var s := if curWd != -1 then RemoveNonexistingMonitor(st, curWd, arr.id) else st;
    RemoveWatchKeeps(st.kernel, curWd);
    assert s.kernel == st.kernel || s.kernel == st.kernel.RemoveWatch(curWd);
    hide MonitorExisting, RemoveNonexistingMonitor, Kernel.RemoveWatch;
    var n := Deepest(st.kernel.dirs, arr.comps);
    if n == |arr.comps| {
      GoneMonitor(s, arr.comps[..n], adir, norm, true, None, x);
    } else {
      GoneMonitor(s, arr.comps[..n], adir, norm, false, Some(arr), x);
    }
  }

  lemma {:induction false} GoneRecheckFrom(st: State, wd: int, i: nat, n: nat, x: int)
    requires Inv(st) && wd in st.table && [] in st.kernel.dirs && Gone(st.kernel, x)
    ensures Gone(RecheckFrom(st, wd, i, n).kernel, x)
    decreases n - i
  {
    if i < n && i < |st.table[wd].watches| {
      var w, r := st.table[wd].watches[i], RecheckOne(st, wd, i);
      if w.Missing() {
        RecheckNonexistingMonitorInv(st, wd, w.nonexisting.value, w.adir, w.normPath);
        GoneRecheck(st, wd, w.nonexisting.value, w.adir, w.normPath, x);
      }
      hide RecheckOne, Inv, Gone;
      GoneRecheckFrom(r, wd, i + 1, n, x);
    }
  }

  lemma GoneNonexisting(st: State, p: Path, adir: Adir, norm: Path, x: int)
    requires Inv(st) && [] in st.kernel.dirs && Gone(st.kernel, x)
    ensures Gone(MonitorNonexisting(st, p, adir, norm).kernel, x)
  {
    hide RecheckNonexistingMonitor, Gone;
    GoneRecheck(st.(nextId := st.nextId + 1), -1, PathArray(st.nextId, p), adir, norm, x);
  }

  /** The deepest existing directory on the path has a live entry: one with a watch for the path if a part of it is
      missing, with a regular watch for the location if all of it is there. */
  ghost predicate Settled(r: State, path: Path, adir: Adir) {
    [] in r.kernel.dirs &&
    var n := Deepest(r.kernel.dirs, path);
    var x := WatchOf(r.kernel, path[..n]);
    && x in r.table && r.kernel.Live(x)
    && (if n < |path| then exists w :: w in r.table[x].watches && w.Missing() && w.adir == adir
                                       && w.nonexisting.value.comps == path
        else HasRegular(r.table[x].watches, adir.location))
  }

  lemma NonexistingSettles(st: State, path: Path, adir: Adir, norm: Path)
    requires Inv(st) && [] in st.kernel.dirs
    ensures Settled(MonitorNonexisting(st, path, adir, norm), path, adir)
  {
    hide RecheckNonexistingMonitor, Inv;
    var s, arr := st.(nextId := st.nextId + 1), PathArray(st.nextId, path);
    var r := MonitorNonexisting(st, path, adir, norm);
    assert r == RecheckNonexistingMonitor(s, -1, arr, adir, norm);
    hide MonitorNonexisting;
    assert Inv(s) by { SameInv(st, s); }
    RecheckSelectsDeepest(s, -1, arr, adir, norm);
    var n := Deepest(s.kernel.dirs, path);
    var x := WatchOf(r.kernel, path[..n]);
    if n < |path| {
      var w := AutoscanWatch(s.nextId, false, adir, norm, Some(arr));
      assert w in r.table[x].watches && w.Missing();
    }
  }

  lemma SameInv(st: State, s: State)
    requires Inv(st) && s == st.(nextId := s.nextId)
    ensures Inv(s)
  {
  }

  /** The first start point among the watches. */
  ghost predicate FirstStart(ws: seq<Watch>, i: int) {
    && 0 <= i < |ws| && ws[i].AutoscanWatch? && ws[i].startPoint
    && forall j :: 0 <= j < i && ws[j].AutoscanWatch? ==> !ws[j].startPoint
  }

  lemma FirstStartIs(ws: seq<Watch>, i: int)
    ensures FirstStart(ws, i) <==> i == FirstIndex(ws, AnyStartPoint) < |ws|
  {
    assert forall j :: 0 <= j < |ws| ==> (Matches(AnyStartPoint, ws[j]) <==> ws[j].AutoscanWatch? && ws[j].startPoint);
  }

  /** wd is gone for good and announced. */
  ghost predicate Released(r: State, wd: int) {
    wd in r.table && Gone(r.kernel, wd) && IgnoredEvent(wd) in r.kernel.queue
  }

  lemma GoneReleased(r: State, wd: int)
    requires Inv(r) && wd in r.table && Gone(r.kernel, wd)
    ensures Released(r, wd)
  {
    assert EntryOk(r.kernel, wd, r.table[wd].watches);
  }

  lemma RemovalReleases(s: State, wd: int)
    requires Inv(s) && wd in s.table
    ensures var r := s.(kernel := s.kernel.RemoveWatch(wd)); Inv(r) && Released(r, wd)
  {
    assert EntryOk(s.kernel, wd, s.table[wd].watches);
    RemoveWatchKeeps(s.kernel, wd);
    RemoveWatchInv(s, wd);
    GoneReleased(s.(kernel := s.kernel.RemoveWatch(wd)), wd);
  }

  /** A descriptor is removed and its path monitored again. */
  lemma RenewalReleases(s: State, wd: int, path: Path, adir: Adir, norm: Path)
    requires Inv(s) && wd in s.table && [] in s.kernel.dirs
    ensures var r := MonitorNonexisting(s.(kernel := s.kernel.RemoveWatch(wd)), path, adir, norm);
            Inv(r) && Released(r, wd) && Settled(r, path, adir)
  {
    RemovalReleases(s, wd);
    var s1 := s.(kernel := s.kernel.RemoveWatch(wd));
    hide Inv, MonitorNonexisting, Gone, Kernel.RemoveWatch, Settled;
    MonitorNonexistingInv(s1, path, adir, norm);
    GoneNonexisting(s1, path, adir, norm, wd);
    NonexistingSettles(s1, path, adir, norm);
    GoneReleased(MonitorNonexisting(s1, path, adir, norm), wd);
  }

  /** checkMoveWatches finds a move watch for wd: after the recheck the descriptor is given up, and the path it was
      recorded under is settled again if its first start point is a persistent one; otherwise nothing else
      changes. */
  lemma MovedGivenUp(st: State, wd: int)
    requires Inv(st) && wd in st.table
    ensures [] in st.kernel.dirs
    ensures var s, r := RecheckNonexistingMonitors(st, wd), GiveUpMoved(st, wd);
            var ws := s.table[wd].watches;
            && Inv(r) && Released(r, wd)
            && (forall i :: FirstStart(ws, i) && ws[i].adir.persistent ==> Settled(r, s.table[wd].path, ws[i].adir))
            && ((forall i :: FirstStart(ws, i) ==> !ws[i].adir.persistent) ==>
                  r == s.(kernel := s.kernel.RemoveWatch(wd)))
  {
    hide Agree, RecheckFrom, MonitorNonexisting, Settled, FirstStart, Released;
    RootExists(st);
    RecheckFromInv(st, wd, 0, |st.table[wd].watches|);
    var s := RecheckNonexistingMonitors(st, wd);
    hide RecheckNonexistingMonitors;
    var ws := s.table[wd].watches;
    var i := FirstIndex(ws, AnyStartPoint);
    forall k ensures FirstStart(ws, k) <==> k == i < |ws| { FirstStartIs(ws, k); }
    RemovalReleases(s, wd);
    if i < |ws| { RenewalReleases(s, wd, s.table[wd].path, ws[i].adir, ws[i].normPath); }
  }

  lemma GoneGiveUp(st: State, removeWd: int, x: int)
    requires Inv(st) && [] in st.kernel.dirs && Gone(st.kernel, x)
    ensures Gone(GiveUpMoved(st, removeWd).kernel, x)
  {
    if removeWd in st.table {
      hide Agree, RecheckFrom, MonitorNonexisting, Gone;
      RecheckFromInv(st, removeWd, 0, |st.table[removeWd].watches|);
      GoneRecheckFrom(st, removeWd, 0, |st.table[removeWd].watches|, x);
      var s := RecheckNonexistingMonitors(st, removeWd);
      hide RecheckNonexistingMonitors;
      RemovalReleases(s, removeWd);
      GoneRemoval(s.kernel, removeWd, x);
      var s1, ws := s.(kernel := s.kernel.RemoveWatch(removeWd)), s.table[removeWd].watches;
      var i := FirstIndex(ws, AnyStartPoint);
      if i < |ws| { GoneNonexisting(s1, s.table[removeWd].path, ws[i].adir, ws[i].normPath, x); }
    }
  }

  lemma GoneRemoval(k: Kernel, wd: int, x: int)
    requires k.WellFormed() && Gone(k, x)
    ensures Gone(k.RemoveWatch(wd), x)
  {
    RemoveWatchKeeps(k, wd);
  }

  lemma GoneMoveAt(st: State, wd: int, i: nat, x: int)
    requires Inv(st) && wd in st.table && [] in st.kernel.dirs && Gone(st.kernel, x)
    ensures Gone(CheckMoveAt(st, wd, i).kernel, x)
  {
    var ws := st.table[wd].watches;
    if i < |ws| && ws[i].MoveWatch? {
      DropWatchInv(st, wd, i);
      RemoveWatchKeeps(st.kernel, wd);
      hide GiveUpMoved, Inv;
      GoneGiveUp(DropWatch(st, wd, i), ws[i].removeWd, x);
    }
  }

  /** The move watch an iteration looks at, for a descriptor that is known: it is released. */
  lemma IterationReleases(st: State, wd: int, i: nat)
    requires Inv(st) && wd in st.table && [] in st.kernel.dirs
    requires i < |st.table[wd].watches| && st.table[wd].watches[i].MoveWatch?
    requires st.table[wd].watches[i].removeWd in st.table
    ensures var d, r := st.table[wd].watches[i].removeWd, CheckMoveAt(st, wd, i);
            Inv(r) && Released(r, d) && r == GiveUpMoved(DropWatch(st, wd, i), d)
  {
    DropWatchInv(st, wd, i);
    var s := DropWatch(st, wd, i);
    hide Inv, GiveUpMoved, Released;
    MovedGivenUp(s, st.table[wd].watches[i].removeWd);
  }

  lemma {:induction false} GoneMoves(st: State, wd: int, i: nat, steps: nat, x: int)
    requires Inv(st) && wd in st.table && [] in st.kernel.dirs && i <= steps
    requires Gone(CheckMoves(st, wd, i).kernel, x)
    ensures Gone(CheckMoves(st, wd, steps).kernel, x)
    decreases steps
  {
    hide CheckMoveAt, Inv, Gone;
    if i < steps {
      GoneMoves(st, wd, i, steps - 1, x);
      GoneOneMove(st, wd, steps - 1, x);
    }
  }

  lemma GoneOneMove(st: State, wd: int, steps: nat, x: int)
    requires Inv(st) && wd in st.table && [] in st.kernel.dirs && Gone(CheckMoves(st, wd, steps).kernel, x)
    ensures Gone(CheckMoves(st, wd, steps + 1).kernel, x)
  {
    hide CheckMoveAt, Inv, Gone;
    var s := CheckMoves(st, wd, steps);
    CheckMovesInv(st, wd, steps, s);
    GoneMoveAt(s, wd, steps, x);
  }

  /** Every descriptor that checkMoveWatches comes across in a move watch, and that has an entry, is gone when the
      loop is done, and announced. */
  lemma AllMovesReleased(st: State, wd: int, i: nat, steps: nat)
    requires Inv(st) && wd in st.table && i < steps
    ensures [] in st.kernel.dirs
    ensures var s, r := CheckMoves(st, wd, i), CheckMoves(st, wd, steps);
            var ws := s.table[wd].watches;
            i < |ws| && ws[i].MoveWatch? && ws[i].removeWd in s.table ==> Released(r, ws[i].removeWd)
  {
    hide Agree, CheckMoveAt, Gone;
    RootExists(st);
    var s, r := CheckMoves(st, wd, i), CheckMoves(st, wd, steps);
    var ws := s.table[wd].watches;
    CheckMovesInv(st, wd, i, s);
    CheckMovesInv(st, wd, steps, r);
    if i < |ws| && ws[i].MoveWatch? && ws[i].removeWd in s.table {
      IterationReleases(s, wd, i);
      assert CheckMoves(st, wd, i + 1) == CheckMoveAt(s, wd, i);
      GoneMoves(st, wd, i + 1, steps, ws[i].removeWd);
      MovesKeepKeys(st, wd, i + 1, steps);
      GoneReleased(r, ws[i].removeWd);
    }
  }

  lemma {:induction false} MovesKeepKeys(st: State, wd: int, i: nat, steps: nat)
    requires wd in st.table && [] in st.kernel.dirs && i <= steps
    ensures CheckMoves(st, wd, i).table.Keys <= CheckMoves(st, wd, steps).table.Keys
    decreases steps
  {
    hide CheckMoveAt;
    if i < steps { MovesKeepKeys(st, wd, i, steps - 1); }
  }

  // ----- events about the watched directory itself -----

  /** The state before the content part: the event is off the queue, for a move the move watches are checked, and
      the entry is rechecked. */
  function SelfRechecked(st: State, steps: nat): (r: State)
    requires st.kernel.queue != [] && [] in st.kernel.dirs && st.kernel.queue[0].wd in st.table
    ensures st.table.Keys <= r.table.Keys && r.kernel.dirs == st.kernel.dirs
  {
    var ev, s := st.kernel.queue[0], Dequeued(st);
    RecheckNonexistingMonitors(if ev.kind == MoveSelf then CheckMoves(s, ev.wd, steps) else s, ev.wd)
  }

  lemma SelfRecheckedInv(st: State, steps: nat)
    requires Inv(st) && st.kernel.queue != [] && st.kernel.queue[0].wd in st.table && st.kernel.queue[0].kind != Ignored
    ensures [] in st.kernel.dirs && Inv(SelfRechecked(st, steps))
  {
    hide Agree, RecheckFrom, CheckMoves;
    RootExists(st);
    DequeueInv(st);
    var s, wd := Dequeued(st), st.kernel.queue[0].wd;
    CheckMovesInv(s, wd, steps, CheckMoves(s, wd, steps));
    var s1 := if st.kernel.queue[0].kind == MoveSelf then CheckMoves(s, wd, steps) else s;
    RecheckFromInv(s1, wd, 0, |s1.table[wd].watches|);
  }

  /** A watched directory is moved, deleted or unmounted, and its path belongs to a location: its descriptor is given
      up, and the path settled again for the first start point left if that location's directory is
      persistent; otherwise nothing changes but what the rechecks did. */
  lemma SelfGivenUp(st: State, below: seq<Path>, steps: nat)
    requires Inv(st) && st.kernel.queue != [] && st.kernel.queue[0].wd in st.table
    requires var kind := st.kernel.queue[0].kind; kind == DeleteSelf || kind == MoveSelf || kind == Unmount
    ensures [] in st.kernel.dirs
    ensures var wd, s, r := st.kernel.queue[0].wd, SelfRechecked(st, steps), HandleEvent(st, below, steps);
            var path := st.table[wd].path;
            var found := BestMatch(st.table[wd].watches, path);
            if found.Some? then ContentGivesUp(s, r, wd, found.value, path) else r == s
  {
    SelfRecheckedInv(st, steps);
    SelfHandled(st, below, steps);
    var ev, s := st.kernel.queue[0], SelfRechecked(st, steps);
    var path := st.table[ev.wd].path;
    var found := BestMatch(st.table[ev.wd].watches, path);
    hide Inv, HandleEvent, SelfRechecked, HandleContent, ContentGivesUp, BestMatch;
    if found.Some? { ContentGivesUpAll(s, ev, found.value, path, below); }
  }

  /** The content part for such an event, with the watch found. */
  ghost predicate ContentGivesUp(s: State, r: State, wd: int, found: Watch, path: Path)
    requires wd in s.table && found.AutoscanWatch?
  {
    var ws := s.table[wd].watches;
    && Released(r, wd)
    && (forall i :: FirstStart(ws, i) && found.adir.persistent ==> Settled(r, path, ws[i].adir))
    && (!found.adir.persistent || (forall i :: !FirstStart(ws, i)) ==> r == s.(kernel := s.kernel.RemoveWatch(wd)))
  }

  lemma ContentGivesUpAll(s: State, ev: Event, found: Watch, path: Path, below: seq<Path>)
    requires Inv(s) && ev.wd in s.table && [] in s.kernel.dirs && found.Regular() && SelfKind(ev.kind)
    ensures ContentGivesUp(s, HandleContent(s, ev, found, path, below), ev.wd, found, path)
  {
    hide Inv, MonitorNonexisting, Settled, FirstStart, Released;
    var ws := s.table[ev.wd].watches;
    var i := FirstIndex(ws, AnyStartPoint);
    forall k ensures FirstStart(ws, k) <==> k == i < |ws| { FirstStartIs(ws, k); }
    RemovalReleases(s, ev.wd);
    if i < |ws| {
      assert FirstStart(ws, i);
      RenewalReleases(s, ev.wd, path, ws[i].adir, ws[i].normPath);
    }
  }

  lemma SelfHandled(st: State, below: seq<Path>, steps: nat)
    requires st.kernel.queue != [] && [] in st.kernel.dirs && st.kernel.queue[0].wd in st.table
    requires SelfKind(st.kernel.queue[0].kind)
    requires !(st.kernel.queue[0].isDir && (st.kernel.queue[0].kind.Create? || st.kernel.queue[0].kind.MovedTo?))
    ensures var wd, s := st.kernel.queue[0].wd, SelfRechecked(st, steps);
            var path := st.table[wd].path;
            var found := BestMatch(st.table[wd].watches, path);
            HandleEvent(st, below, steps) ==
            if found.Some? then HandleContent(s, st.kernel.queue[0], found.value, path, below) else s
  {
    hide RecheckNonexistingMonitors, CheckMoves, BestMatch, HandleContent;
  }

  /** An event for a descriptor that has no entry asks for its removal and does nothing else. */
  lemma UnknownReleased(st: State, below: seq<Path>, steps: nat)
    requires st.kernel.WellFormed() && st.kernel.queue != [] && st.kernel.queue[0].wd !in st.table
    ensures var wd, r := st.kernel.queue[0].wd, HandleEvent(st, below, steps);
            && !r.kernel.Live(wd) && r.table == st.table && r.descendants == st.descendants
            && forall x :: x != wd && st.kernel.Live(x) ==> r.kernel.Live(x)
  {
    var wd, s := st.kernel.queue[0].wd, Dequeued(st);
    RemoveWatchKeeps(s.kernel, wd);
    forall x | st.kernel.Live(x) ensures s.kernel.Live(x) { SameLive(st.kernel, s.kernel, x); }
  }
}
