/**
 Which watches an entry may hold when the autoscan directories are known and nothing is renamed, and
 which descriptors are registered as descendants of which watch. A descendant lies below the location
 it is registered with. If no location around a certain one is ever given up, a descendant outlives the
 descriptor of its location only when it is of no use to that one.
 */
module WatchKin {
  import opened Wrappers
  import opened InotifyKernel
  import opened WatchTable
  import opened WatchSweep
  import opened WatchEffects
  import opened TreeSteps

  /** The location a result is about. It is sheltered if no location around it has been given up, and owned if
      no directory but a persistent one is held for it. */
  datatype Stake = Stake(location: Path, sheltered: bool, owned: bool)

  // ----- entries -----

  /** The watches an entry at `path` may hold when ds are the autoscan directories. */
  predicate WatchFits(ds: set<Adir>, path: Path, w: Watch) {
    w.AutoscanWatch? ==>
      && w.adir in ds && w.normPath == w.adir.location
      && (w.Missing() ==>
            && w.nonexisting.value.comps == w.adir.location && path < w.adir.location && !w.startPoint
            && w.adir.persistent)
      && (w.Regular() && w.startPoint ==> path == w.adir.location)
      && (w.Regular() && !w.startPoint ==> w.adir.location < path)
  }

  ghost predicate EntryFits(k: Kernel, ds: set<Adir>, x: int, e: Wd) {
    && 1 <= x < k.nextWd && x in k.home && e.path == k.home[x]
    && (forall w :: w in e.watches ==> WatchFits(ds, e.path, w))
  }

  /** Some directory of ds with that location is recursive. */
  ghost predicate RecursiveAt(ds: set<Adir>, location: Path) {
    exists f :: f in ds && f.location == location && f.recursive
  }

  /** The location at stake is neither p nor below it. */
  ghost predicate Clear(q: Stake, p: Path) {
    q.sheltered ==> !(p <= q.location)
  }

  /** Giving f up takes no descriptor that the location at stake may need: it is not inside f's tree. */
  ghost predicate Releasable(ds: set<Adir>, q: Stake, f: Adir) {
    q.sheltered && RecursiveAt(ds, f.location) ==> !(f.location < q.location)
  }

  // ----- descendants -----

  ghost predicate Holds(t: Table, x: int, w: Watch) {
    x in t && w in t[x].watches && w.AutoscanWatch?
  }

  /** z is registered as a descendant with watch w of entry x. */
  ghost predicate Registered(t: Table, descendants: map<nat, seq<int>>, x: int, w: Watch, z: int) {
    Holds(t, x, w) && w.id in descendants && z in descendants[w.id]
  }

  /** A descendant lies below the location it is registered with, and outlives that location's descriptor only
      if it is of no use to the location at stake. */
  ghost predicate KinFits(k: Kernel, ds: set<Adir>, q: Stake, path: Path, x: int, w: Watch, z: int) {
    && w.Regular() && RecursiveAt(ds, w.adir.location)
    && z < k.nextWd && z in k.home && path < k.home[z]
    && (k.Live(z) && !k.Live(x) ==> Clear(q, k.home[z]))
  }

  ghost predicate OwnIds(t: Table, nextId: nat) {
    && (forall x, w :: Holds(t, x, w) ==> w.id < nextId)
    && (forall x, y, w, v :: Holds(t, x, w) && Holds(t, y, v) && w.id == v.id ==> x == y && w == v)
  }

  ghost predicate HoldsMissing(t: Table, x: int, w: Watch) {
    Holds(t, x, w) && w.Missing()
  }

  /** A path array is told by its id. */
  ghost predicate OwnArrays(t: Table, nextId: nat) {
    && (forall x, w :: HoldsMissing(t, x, w) ==> w.nonexisting.value.id < nextId)
    && (forall x, y, w, v :: HoldsMissing(t, x, w) && HoldsMissing(t, y, v) ==>
          w.nonexisting.value.id == v.nonexisting.value.id ==> w.nonexisting == v.nonexisting)
  }

  /** The array is that of every watch with its id. */
  ghost predicate ArrayFits(t: Table, nextId: nat, arr: PathArray) {
    arr.id < nextId &&
    forall x, w :: HoldsMissing(t, x, w) && w.nonexisting.value.id == arr.id ==> w.nonexisting.value == arr
  }

  /** A live descriptor that is the start point of the location is so for a persistent directory. */
  ghost predicate OwnedAt(k: Kernel, t: Table, location: Path) {
    forall x, w :: Holds(t, x, w) && k.Live(x) && w.Regular() && w.startPoint && w.adir.location == location ==>
                     w.adir.persistent
  }

  ghost predicate Kin(st: State, ds: set<Adir>, q: Stake) {
    && OwnIds(st.table, st.nextId) && (forall id :: id in st.descendants ==> id < st.nextId)
    && (forall x, w, z :: Registered(st.table, st.descendants, x, w, z) ==>
          KinFits(st.kernel, ds, q, st.table[x].path, x, w, z))
    && OwnArrays(st.table, st.nextId) && (q.owned ==> OwnedAt(st.kernel, st.table, q.location))
  }

  ghost predicate OnlyFor(k: Kernel, t: Table, ds: set<Adir>) {
    && AtHome(k) && QueueOk(k)
    && (forall x :: x in t ==> EntryFits(k, ds, x, t[x]))
  }

  /** What holds of every state without renames, for the directories ds and the location at stake. */
  ghost predicate Base(st: State, ds: set<Adir>, q: Stake) {
    OnlyFor(st.kernel, st.table, ds) && Kin(st, ds, q)
  }

  // ----- monitorDirectory -----

  /** The calls made for f: for f itself, below f, or on an ancestor while f is missing. */
  ghost predicate CallFor(ds: set<Adir>, f: Adir, dirs: map<Path, Ino>, p: Path, startPoint: bool,
                          missing: Option<PathArray>) {
    && f in ds && p in dirs
    && (missing.Some? ==>
          missing.value.comps == f.location && p < f.location && !startPoint && f.location !in dirs && f.persistent)
    && (missing.None? && startPoint ==> p == f.location)
    && (missing.None? && !startPoint ==> f.location < p && f.recursive)
  }

  lemma MonitorEntryFor(st: State, ds: set<Adir>, q: Stake, f: Adir, p: Path, startPoint: bool,
                        missing: Option<PathArray>, x: int)
    requires Base(st, ds, q) && CallFor(ds, f, st.kernel.dirs, p, startPoint, missing)
    requires x in MonitorExisting(st, p, f, f.location, startPoint, missing).table && 1 <= x
    ensures var s := MonitorExisting(st, p, f, f.location, startPoint, missing);
            EntryFits(s.kernel, ds, x, s.table[x])
  {
    var s := MonitorExisting(st, p, f, f.location, startPoint, missing);
    MonitorExistingAt(st, p, f, f.location, startPoint, missing, x);
    assert x in st.table ==> EntryFits(st.kernel, ds, x, st.table[x]);
    hide MonitorExisting;
    MonitoredAtHome(st, s, ds, q, p, x);
    hide OnlyFor, Extends, PathEffect;
    EffectFits(st, s, ds, f, p, startPoint, missing, x);
  }

  /** The watches that monitoring adds to an entry are among those it may hold. */
  lemma EffectFits(st: State, s: State, ds: set<Adir>, f: Adir, p: Path, startPoint: bool,
                   missing: Option<PathArray>, x: int)
    requires CallFor(ds, f, st.kernel.dirs, p, startPoint, missing) && x in s.table
    requires OwnEffect(st, s, p, f, f.location, startPoint, missing)
    requires if x == WatchOf(s.kernel, p) then s.table[x].path == p else MoveEffect(st, s, p, startPoint, x)
    requires forall w :: w in WatchesAt(st, x) ==> WatchFits(ds, s.table[x].path, w)
    ensures forall w :: w in s.table[x].watches ==> WatchFits(ds, s.table[x].path, w)
  {
    var own := AutoscanWatch(st.nextId, startPoint, f, f.location, missing);
    assert x == WatchOf(s.kernel, p) ==> WatchFits(ds, p, own);
    assert forall w :: w in s.table[x].watches ==>
                         w in WatchesAt(st, x) || w.MoveWatch? || (w == own && x == WatchOf(s.kernel, p));
  }

  /** Entries keep the path their descriptor was first obtained through. */
  lemma MonitoredAtHome(st: State, s: State, ds: set<Adir>, q: Stake, p: Path, x: int)
    requires Base(st, ds, q) && Extends(st.kernel, s.kernel) && PathEffect(st, s, p, x) && x in s.table && 1 <= x
    requires WatchOf(s.kernel, p) >= 1
    ensures x < s.kernel.nextWd && x in s.kernel.home && s.table[x].path == s.kernel.home[x]
    ensures x == WatchOf(s.kernel, p) ==> s.table[x].path == p
  {
    ExtendsHome(st.kernel, s.kernel);
    HomeOf(s.kernel, p);
    if x in st.table {
      assert EntryFits(st.kernel, ds, x, st.table[x]);
    } else {
      var j :| 0 <= j <= |p| && WatchOf(s.kernel, p[..j]) == x && s.table[x].path == p[..j];
      HomeOf(s.kernel, p[..j]);
    }
  }

  lemma MonitorKeysPositive(st: State, p: Path, adir: Adir, norm: Path, startPoint: bool, missing: Option<PathArray>)
    requires st.kernel.WellFormed() && p in st.kernel.dirs && forall x :: x in st.table ==> 1 <= x
    ensures forall x :: x in MonitorExisting(st, p, adir, norm, startPoint, missing).table ==> 1 <= x
  {
    AddWatchKeeps(st.kernel, p);
    var (k, wd) := st.kernel.AddWatch(p);
    if startPoint { WatchPathKeysPositive(st.(kernel := k), p, wd, 0, INOTIFY_ROOT); }
  }

  lemma {:induction false} WatchPathKeysPositive(st: State, p: Path, wd: int, i: nat, parentWd: int)
    requires st.kernel.WellFormed() && i <= |p| && forall x :: x in st.table ==> 1 <= x
    ensures forall x :: x in WatchPathForMoves(st, p, wd, i, parentWd).0.table ==> 1 <= x
    decreases |p| - i
  {
    if i < |p| {
      AddWatchKeeps(st.kernel, p[..i]);
      var (s, c) := AddMoveWatch(st, p[..i], wd, parentWd);
      assert s.kernel.WellFormed() && forall x :: x in s.table ==> 1 <= x;
      hide AddMoveWatch, Kernel.WellFormed;
      WatchPathKeysPositive(s, p, wd, i + 1, c);
    }
  }

  // ----- numbers and registrations -----

  ghost predicate WithDescendant(before: map<nat, seq<int>>, after: map<nat, seq<int>>, id: nat, z: int) {
    after == before[id := (if id in before then before[id] else []) + [z]]
  }

  /** What monitorDirectory numbers and registers: its watch has the next id, if it is new, and then the directory is
      registered exactly if it is no start point and the start point's entry has a regular watch for the location. */
  ghost predicate Numbered(st: State, r: State, wd: int, own: Watch, norm: Path, location: Path)
    requires own.AutoscanWatch?
  {
    || (r.nextId == st.nextId && r.descendants == st.descendants && WatchesAt(r, wd) == WatchesAt(st, wd))
    || (&& r.nextId == st.nextId + 1 && own.id == st.nextId
        && if !own.startPoint && HasRegular(WatchesAt(r, WatchOf(r.kernel, norm)), location) then
             exists w :: Holds(r.table, WatchOf(r.kernel, norm), w) && Matches(RegularFor(location), w)
                         && WithDescendant(st.descendants, r.descendants, w.id, wd)
           else r.descendants == st.descendants)
  }

  lemma AddDescendantIs(s: State, x: int, wd: int, adir: Adir)
    ensures var r := AddDescendant(s, x, wd, adir);
            && r == s.(descendants := r.descendants)
            && if HasRegular(WatchesAt(s, x), adir.location) then
                 exists w :: Holds(s.table, x, w) && Matches(RegularFor(adir.location), w)
                             && WithDescendant(s.descendants, r.descendants, w.id, wd)
               else r.descendants == s.descendants
  {
    if x in s.table {
      var ws := s.table[x].watches;
      var i := FirstIndex(ws, RegularFor(adir.location));
      if w :| w in ws && Matches(RegularFor(adir.location), w) {
        var j :| 0 <= j < |ws| && ws[j] == w;
        assert i <= j && Holds(s.table, x, ws[i]);
      }
    }
  }

  lemma InstallNumbers(s: State, p: Path, adir: Adir, norm: Path, startPoint: bool, missing: Option<PathArray>,
                       had: bool, wd: int, parentWd: int)
    requires (had <==> wd in s.table) && s.kernel.WellFormed() && -1 !in s.table && 1 <= wd
    ensures var r := Install(s, p, adir, norm, startPoint, missing, had, wd, parentWd);
            Numbered(s, r, wd, AutoscanWatch(s.nextId, startPoint, adir, norm, missing), norm, adir.location)
  {
    var e := EntryFor(s.table, had, p, wd, parentWd);
    var w := AutoscanWatch(s.nextId, startPoint, adir, norm, missing);
    var s1 := s.(table := s.table[wd := AppendWatch(e, w)], nextId := s.nextId + 1);
    var r := Install(s, p, adir, norm, startPoint, missing, had, wd, parentWd);
    if (had && missing.None? && FirstIndex(e.watches, RegularFor(adir.location)) < |e.watches|) || startPoint {
    } else {
      var (k1, x) := s1.kernel.AddWatch(norm);
      assert r == AddDescendant(s1.(kernel := k1), x, wd, adir);
      hide Install, EntryFor;
      AddWatchKeeps(s1.kernel, norm);
      JoinNumbers(s, s1.(kernel := k1), x, wd, w, adir, r);
    }
  }

  lemma JoinNumbers(s: State, s1: State, x: int, wd: int, own: Watch, adir: Adir, r: State)
    requires own.AutoscanWatch? && !own.startPoint && own.id == s.nextId && s1.nextId == s.nextId + 1
    requires s1.descendants == s.descendants && s1.kernel.dirs == s.kernel.dirs && -1 !in s1.table
    requires x == WatchOf(s1.kernel, own.normPath) && r == AddDescendant(s1, x, wd, adir)
    ensures Numbered(s, r, wd, own, own.normPath, adir.location)
  {
    AddDescendantIs(s1, x, wd, adir);
    assert own.normPath !in s.kernel.dirs ==> r == s1;
    hide AddDescendant, WithDescendant;
  }

  lemma NumberedFrom(st: State, s: State, r: State, wd: int, own: Watch, norm: Path, location: Path)
    requires own.AutoscanWatch? && Numbered(s, r, wd, own, norm, location) && s.nextId == st.nextId
    requires s.descendants == st.descendants && s.kernel.dirs == st.kernel.dirs && WatchesAt(s, wd) == WatchesAt(st, wd)
    ensures Numbered(st, r, wd, own, norm, location)
  {
  }

  /** monitorDirectory on an existing directory numbers its watch and registers the directory. */
  lemma MonitorNumbers(st: State, p: Path, adir: Adir, norm: Path, startPoint: bool, missing: Option<PathArray>)
    requires st.kernel.WellFormed() && p in st.kernel.dirs && forall x :: x in st.table ==> 1 <= x
    ensures var r := MonitorExisting(st, p, adir, norm, startPoint, missing);
            Numbered(st, r, WatchOf(r.kernel, p), AutoscanWatch(st.nextId, startPoint, adir, norm, missing),
                     norm, adir.location)
  {
    var r := MonitorExisting(st, p, adir, norm, startPoint, missing);
    var (k, wd) := st.kernel.AddWatch(p);
    AddWatchKeeps(st.kernel, p);
    var s0 := st.(kernel := k);
    var (s, parentWd) := WatchAbove(s0, p, wd, startPoint);
    assert r == Install(s, p, adir, norm, startPoint, missing, wd in st.table, wd, parentWd);
    hide MonitorExisting, Install, WatchAbove, Kernel.AddWatch, Numbered;
    WalkDescendants(s0, p, wd, startPoint);
    WatchAboveAt(s0, p, wd, startPoint, wd);
    InstallKernel(s, p, adir, norm, startPoint, missing, wd in st.table, wd, parentWd);
    InstallNumbers(s, p, adir, norm, startPoint, missing, wd in st.table, wd, parentWd);
    assert WatchOf(r.kernel, p) == wd;
    hide Extends, PathEffect, MoveEffect;
    NumberedFrom(st, s, r, wd, AutoscanWatch(st.nextId, startPoint, adir, norm, missing), norm, adir.location);
  }

  lemma WalkDescendants(st: State, p: Path, wd: int, startPoint: bool)
    requires st.kernel.WellFormed() && p in st.kernel.dirs && (forall x :: x in st.table ==> 1 <= x)
    requires WatchOf(st.kernel, p) == wd >= 1
    ensures var s := WatchAbove(st, p, wd, startPoint).0;
            s.descendants == st.descendants && forall x :: x in s.table ==> 1 <= x
  {
    if startPoint {
      WatchPathAt(st, p, wd, 0, INOTIFY_ROOT, 1);
      WatchPathKeysPositive(st, p, wd, 0, INOTIFY_ROOT);
    }
  }

  /** Every autoscan watch is an old one in its place, or the own one of p's entry. */
  ghost predicate OneMore(st: State, r: State, wd: int, own: Watch) {
    && (forall x :: x in st.table ==> x in r.table && r.table[x].path == st.table[x].path)
    && (forall x, w :: Holds(r.table, x, w) ==> Holds(st.table, x, w) || (x == wd && w == own))
  }

  lemma OneMoreIds(st: State, r: State, wd: int, own: Watch)
    requires OwnIds(st.table, st.nextId) && OneMore(st, r, wd, own) && own.AutoscanWatch? && own.id == st.nextId
    requires r.nextId == st.nextId + 1
    ensures OwnIds(r.table, r.nextId)
  {
  }

  lemma OneMoreArrays(st: State, r: State, wd: int, own: Watch)
    requires OwnArrays(st.table, st.nextId) && OneMore(st, r, wd, own) && own.AutoscanWatch? && st.nextId <= r.nextId
    requires own.Missing() ==> ArrayFits(st.table, st.nextId, own.nonexisting.value)
    ensures OwnArrays(r.table, r.nextId)
  {
    assert forall x, w :: HoldsMissing(r.table, x, w) ==> HoldsMissing(st.table, x, w) || w == own;
  }

  lemma OneMoreOwned(st: State, r: State, wd: int, own: Watch, location: Path)
    requires OwnedAt(st.kernel, st.table, location) && OneMore(st, r, wd, own) && Extends(st.kernel, r.kernel)
    requires own.AutoscanWatch? && (own.startPoint && own.adir.location == location ==> own.adir.persistent)
    requires forall x :: x in st.table ==> x < st.kernel.nextWd
    ensures OwnedAt(r.kernel, r.table, location)
  {
    forall x, w | Holds(r.table, x, w) && r.kernel.Live(x) && w.Regular() && w.startPoint && w.adir.location == location
      ensures w.adir.persistent
    {
      if Holds(st.table, x, w) { ExtendsLiveBack(st.kernel, r.kernel, x); }
    }
  }

  /** The new registration, if there is one, fits. */
  lemma NewKinFits(r: State, ds: set<Adir>, q: Stake, f: Adir, p: Path, w: Watch)
    requires OnlyFor(r.kernel, r.table, ds) && f in ds && f.recursive && f.location < p
    requires WatchOf(r.kernel, p) >= 1 && Holds(r.table, WatchOf(r.kernel, f.location), w)
    requires Matches(RegularFor(f.location), w)
    ensures var x := WatchOf(r.kernel, f.location);
            KinFits(r.kernel, ds, q, r.table[x].path, x, w, WatchOf(r.kernel, p))
  {
    var x := WatchOf(r.kernel, f.location);
    assert EntryFits(r.kernel, ds, x, r.table[x]);
    assert WatchFits(ds, r.table[x].path, w);
    HomeOf(r.kernel, f.location);
    HomeOf(r.kernel, p);
  }

  /** An old registration still fits: no descriptor has died and no dead one come back. */
  lemma OldKinFits(st: State, r: State, ds: set<Adir>, q: Stake, x: int, w: Watch, z: int)
    requires Extends(st.kernel, r.kernel) && x in st.table && x in r.table && r.table[x].path == st.table[x].path
    requires KinFits(st.kernel, ds, q, st.table[x].path, x, w, z)
    ensures KinFits(r.kernel, ds, q, r.table[x].path, x, w, z)
  {
    if r.kernel.Live(z) { ExtendsLiveBack(st.kernel, r.kernel, z); }
    if st.kernel.Live(x) { ExtendsLive(st.kernel, r.kernel, x); }
  }

  /** Without a new registration, those there are fit. */
  lemma KinKept(st: State, r: State, ds: set<Adir>, q: Stake, wd: int, own: Watch)
    requires Kin(st, ds, q) && Extends(st.kernel, r.kernel) && own.AutoscanWatch? && own.id == st.nextId
    requires OneMore(st, r, wd, own) && r.descendants == st.descendants
    ensures forall x, w, z :: Registered(r.table, r.descendants, x, w, z) ==>
                                KinFits(r.kernel, ds, q, r.table[x].path, x, w, z)
  {
    forall x, w, z | Registered(r.table, r.descendants, x, w, z)
      ensures KinFits(r.kernel, ds, q, r.table[x].path, x, w, z)
    {
      assert Registered(st.table, st.descendants, x, w, z);
      OldKinFits(st, r, ds, q, x, w, z);
    }
  }

  /** With watch v registering wd, a registration is that one or an old one. */
  lemma NewOrOld(st: State, r: State, y: int, v: Watch, wd: int, own: Watch, x: int, w: Watch, z: int)
    requires (forall id :: id in st.descendants ==> id < st.nextId) && OwnIds(r.table, r.nextId)
    requires own.AutoscanWatch? && own.id == st.nextId && OneMore(st, r, wd, own) && y != wd
    requires Holds(r.table, y, v) && WithDescendant(st.descendants, r.descendants, v.id, wd)
    requires Registered(r.table, r.descendants, x, w, z)
    ensures Registered(st.table, st.descendants, x, w, z) || (x == y && w == v && z == wd)
  {
  }

  lemma KinAdded(st: State, r: State, ds: set<Adir>, q: Stake, f: Adir, p: Path, own: Watch, v: Watch)
    requires Kin(st, ds, q) && Extends(st.kernel, r.kernel) && OnlyFor(r.kernel, r.table, ds) && f in ds
    requires own.AutoscanWatch? && own.id == st.nextId && OwnIds(r.table, r.nextId)
    requires WatchOf(r.kernel, p) >= 1 && OneMore(st, r, WatchOf(r.kernel, p), own)
    requires f.location < p && f.recursive
    requires Holds(r.table, WatchOf(r.kernel, f.location), v) && Matches(RegularFor(f.location), v)
    requires WithDescendant(st.descendants, r.descendants, v.id, WatchOf(r.kernel, p))
    ensures forall x, w, z :: Registered(r.table, r.descendants, x, w, z) ==>
                                KinFits(r.kernel, ds, q, r.table[x].path, x, w, z)
  {
    var wd, y := WatchOf(r.kernel, p), WatchOf(r.kernel, f.location);
    NewKinFits(r, ds, q, f, p, v);
    HomeOf(r.kernel, p);
    assert EntryFits(r.kernel, ds, y, r.table[y]);
    HomeOf(r.kernel, f.location);
    hide OnlyFor, Extends, OneMore, WithDescendant, OwnIds, KinFits;
    forall x, w, z | Registered(r.table, r.descendants, x, w, z)
      ensures KinFits(r.kernel, ds, q, r.table[x].path, x, w, z)
    {
      NewOrOld(st, r, y, v, wd, own, x, w, z);
      if Registered(st.table, st.descendants, x, w, z) {
        SamePlace(st, r, wd, own, x);
        OldKinFits(st, r, ds, q, x, w, z);
      }
    }
  }

  lemma SamePlace(st: State, r: State, wd: int, own: Watch, x: int)
    requires OneMore(st, r, wd, own) && x in st.table
    ensures x in r.table && r.table[x].path == st.table[x].path
  {
  }

  lemma KinGrows(st: State, r: State, ds: set<Adir>, q: Stake, f: Adir, p: Path, own: Watch)
    requires Kin(st, ds, q) && Extends(st.kernel, r.kernel) && OnlyFor(r.kernel, r.table, ds) && f in ds
    requires own.AutoscanWatch? && own.id == st.nextId
    requires WatchOf(r.kernel, p) >= 1 && OneMore(st, r, WatchOf(r.kernel, p), own)
    requires Numbered(st, r, WatchOf(r.kernel, p), own, f.location, f.location)
    requires !own.startPoint && f.location in st.kernel.dirs ==> f.location < p && f.recursive
    requires own.Missing() ==> ArrayFits(st.table, st.nextId, own.nonexisting.value)
    requires own.startPoint && q.owned && own.adir.location == q.location ==> own.adir.persistent
    requires forall x :: x in st.table ==> x < st.kernel.nextWd
    ensures Kin(r, ds, q)
  {
    var wd := WatchOf(r.kernel, p);
    OneMoreArrays(st, r, wd, own);
    if q.owned { OneMoreOwned(st, r, wd, own, q.location); }
    hide OwnArrays, OwnedAt;
    if r.nextId == st.nextId {
      assert forall x, w :: Holds(r.table, x, w) ==> Holds(st.table, x, w);
    } else {
      OneMoreIds(st, r, wd, own);
    }
    if r.descendants == st.descendants {
      KinKept(st, r, ds, q, wd, own);
    } else {
      var v :| Holds(r.table, WatchOf(r.kernel, f.location), v) && Matches(RegularFor(f.location), v)
               && WithDescendant(st.descendants, r.descendants, v.id, wd);
      hide OnlyFor, Extends, OneMore;
      KinAdded(st, r, ds, q, f, p, own, v);
      hide OwnIds;
    }
  }

  lemma MonitorKin(st: State, ds: set<Adir>, q: Stake, f: Adir, p: Path, startPoint: bool,
                   missing: Option<PathArray>, r: State)
    requires Base(st, ds, q) && CallFor(ds, f, st.kernel.dirs, p, startPoint, missing)
    requires r == MonitorExisting(st, p, f, f.location, startPoint, missing) && OnlyFor(r.kernel, r.table, ds)
    requires missing.Some? ==> ArrayFits(st.table, st.nextId, missing.value)
    requires startPoint && q.owned && f.location == q.location ==> f.persistent
    ensures Kin(r, ds, q)
  {
    var own := AutoscanWatch(st.nextId, startPoint, f, f.location, missing);
    assert forall x :: x in st.table ==> EntryFits(st.kernel, ds, x, st.table[x]);
    assert forall x :: x in st.table ==> 1 <= x < st.kernel.nextWd;
    MonitorNumbers(st, p, f, f.location, startPoint, missing);
    MonitorOneMore(st, ds, f, p, startPoint, missing, r);
    MonitorExistingAt(st, p, f, f.location, startPoint, missing, 1);
    hide MonitorExisting, OnlyFor, Kin, OneMore, ArrayFits, Numbered, OwnEffect, PathEffect, MoveEffect, Extends;
    KinGrows(st, r, ds, q, f, p, own);
  }

  lemma MonitorOneMore(st: State, ds: set<Adir>, f: Adir, p: Path, startPoint: bool, missing: Option<PathArray>,
                       r: State)
    requires OnlyFor(st.kernel, st.table, ds) && p in st.kernel.dirs
    requires r == MonitorExisting(st, p, f, f.location, startPoint, missing)
    ensures OneMore(st, r, WatchOf(r.kernel, p), AutoscanWatch(st.nextId, startPoint, f, f.location, missing))
  {
    var own := AutoscanWatch(st.nextId, startPoint, f, f.location, missing);
    assert forall x :: x in st.table ==> EntryFits(st.kernel, ds, x, st.table[x]);
    MonitorKeysPositive(st, p, f, f.location, startPoint, missing);
    hide MonitorExisting, OnlyFor;
    forall x | x in r.table ensures OneMoreAt(st, r, WatchOf(r.kernel, p), own, x) {
      MonitorOneMoreAt(st, f, p, startPoint, missing, r, x);
    }
  }

  ghost predicate OneMoreAt(st: State, r: State, wd: int, own: Watch, x: int) {
    && x in r.table && (x in st.table ==> r.table[x].path == st.table[x].path)
    && (forall w :: w in r.table[x].watches && w.AutoscanWatch? ==> w in WatchesAt(st, x) || (x == wd && w == own))
  }

  lemma MonitorOneMoreAt(st: State, f: Adir, p: Path, startPoint: bool, missing: Option<PathArray>, r: State, x: int)
    requires st.kernel.WellFormed() && p in st.kernel.dirs && x in r.table && 1 <= x
    requires r == MonitorExisting(st, p, f, f.location, startPoint, missing)
    ensures OneMoreAt(st, r, WatchOf(r.kernel, p), AutoscanWatch(st.nextId, startPoint, f, f.location, missing), x)
  {
    MonitorExistingAt(st, p, f, f.location, startPoint, missing, x);
    hide MonitorExisting, Extends, Between;
  }

  lemma MonitorBase(st: State, ds: set<Adir>, q: Stake, f: Adir, p: Path, startPoint: bool, missing: Option<PathArray>)
    requires Base(st, ds, q) && CallFor(ds, f, st.kernel.dirs, p, startPoint, missing)
    requires missing.Some? ==> ArrayFits(st.table, st.nextId, missing.value)
    requires startPoint && q.owned && f.location == q.location ==> f.persistent
    ensures Base(MonitorExisting(st, p, f, f.location, startPoint, missing), ds, q)
  {
    var s := MonitorExisting(st, p, f, f.location, startPoint, missing);
    MonitorExistingAt(st, p, f, f.location, startPoint, missing, 1);
    ExtendsHome(st.kernel, s.kernel);
    MonitorKeysPositive(st, p, f, f.location, startPoint, missing);
    forall x | x in s.table ensures EntryFits(s.kernel, ds, x, s.table[x]) {
      MonitorEntryFor(st, ds, q, f, p, startPoint, missing, x);
    }
    MonitorKin(st, ds, q, f, p, startPoint, missing, s);
  }

  // ----- watches and descriptors that go -----

  ghost predicate Mourned(k: Kernel, q: Stake, z: int) {
    z in k.home ==> Clear(q, k.home[z])
  }

  /** The autoscan watches left are old ones in their place. */
  ghost predicate NoMore(t: Table, t': Table) {
    && (forall x :: x in t' ==> x in t && t'[x].path == t[x].path)
    && (forall x, w :: Holds(t', x, w) ==> Holds(t, x, w))
  }

  /** No descriptor comes back, and one that dies leaves no descendants that the location at stake needs. */
  ghost predicate DiesAlone(st: State, r: State, q: Stake) {
    && r.kernel.home == st.kernel.home && r.kernel.nextWd == st.kernel.nextWd
    && (forall x :: r.kernel.Live(x) ==> st.kernel.Live(x))
    && (forall x, w, z :: Registered(r.table, r.descendants, x, w, z) ==>
          st.kernel.Live(x) && !r.kernel.Live(x) && r.kernel.Live(z) ==> Mourned(r.kernel, q, z))
  }

  lemma KinStays(st: State, r: State, ds: set<Adir>, q: Stake)
    requires Kin(st, ds, q) && NoMore(st.table, r.table) && DiesAlone(st, r, q)
    requires r.descendants == st.descendants && st.nextId <= r.nextId
    ensures Kin(r, ds, q)
  {
    assert forall x, w :: HoldsMissing(r.table, x, w) ==> HoldsMissing(st.table, x, w);
    forall x, w, z | Registered(r.table, r.descendants, x, w, z)
      ensures KinFits(r.kernel, ds, q, r.table[x].path, x, w, z)
    {
      assert Registered(st.table, st.descendants, x, w, z);
    }
  }

  lemma DropWatchBase(st: State, ds: set<Adir>, q: Stake, wd: int, i: nat)
    requires Base(st, ds, q) && wd in st.table && i < |st.table[wd].watches|
    requires st.table[wd].watches[i].Regular() ==> Releasable(ds, q, st.table[wd].watches[i].adir)
    ensures Base(DropWatch(st, wd, i), ds, q)
  {
    RemoveWatchHome(st.kernel, wd);
    var r := DropWatch(st, wd, i);
    forall x | x in r.table ensures EntryFits(r.kernel, ds, x, r.table[x]) {
      assert EntryFits(st.kernel, ds, x, st.table[x]);
      assert forall w :: w in r.table[x].watches ==> w in st.table[x].watches;
    }
    DroppedKin(st, r, ds, q, wd, i);
  }

  lemma DroppedKin(st: State, r: State, ds: set<Adir>, q: Stake, wd: int, i: nat)
    requires Base(st, ds, q) && wd in st.table && i < |st.table[wd].watches| && r == DropWatch(st, wd, i)
    requires st.table[wd].watches[i].Regular() ==> Releasable(ds, q, st.table[wd].watches[i].adir)
    ensures Kin(r, ds, q)
  {
    RemoveWatchKeeps(st.kernel, wd);
    if |st.table[wd].watches| == 1 { DropMourned(st, ds, q, wd, i); }
    hide OnlyFor;
    KinStays(st, r, ds, q);
  }

  /** Once the only watch of an entry is given up, its descendants are of no use to the location at stake. */
  lemma DropMourned(st: State, ds: set<Adir>, q: Stake, wd: int, i: nat)
    requires Base(st, ds, q) && wd in st.table && i < |st.table[wd].watches|
    requires st.table[wd].watches[i].Regular() ==> Releasable(ds, q, st.table[wd].watches[i].adir)
    requires |st.table[wd].watches| == 1
    ensures forall w, z :: Registered(st.table, st.descendants, wd, w, z) ==> Mourned(st.kernel, q, z)
  {
    forall w, z | Registered(st.table, st.descendants, wd, w, z) ensures Mourned(st.kernel, q, z) {
      assert w == st.table[wd].watches[0];
      assert KinFits(st.kernel, ds, q, st.table[wd].path, wd, w, z);
      assert EntryFits(st.kernel, ds, wd, st.table[wd]);
      assert WatchFits(ds, st.table[wd].path, w);
      ClearBelow(q, w.adir.location, st.kernel.home[z]);
    }
  }

  lemma ClearBelow(q: Stake, p: Path, p': Path)
    requires (q.sheltered ==> !(p < q.location)) && p < p'
    ensures Clear(q, p')
  {
  }

  lemma ClearFurther(q: Stake, p: Path, p': Path)
    requires Clear(q, p) && p <= p'
    ensures Clear(q, p')
  {
  }

  lemma NextIdBase(st: State, ds: set<Adir>, q: Stake)
    requires Base(st, ds, q)
    ensures Base(st.(nextId := st.nextId + 1), ds, q)
  {
    KinStays(st, st.(nextId := st.nextId + 1), ds, q);
  }

  // ----- handling an event -----

  lemma DequeueBase(st: State, ds: set<Adir>, q: Stake)
    requires Base(st, ds, q) && st.kernel.queue != []
    ensures Base(Dequeued(st), ds, q)
  {
    var k, k' := st.kernel, Dequeued(st).kernel;
    forall x ensures k'.Live(x) <==> k.Live(x) { SameLive(k, k', x); }
    KinStays(st, Dequeued(st), ds, q);
    forall ev | ev in k'.queue ensures ev in k.queue && (k'.Live(ev.wd) ==> k.Live(ev.wd)) {
      if k'.Live(ev.wd) {
        var i :| i in k'.wds && k'.wds[i] == ev.wd;
        assert i in k.wds && k.wds[i] == ev.wd;
      }
    }
  }

  lemma {:induction false} SweepAllBase(st: State, ds: set<Adir>, q: Stake, xs: seq<int>, wd: int)
    requires Base(st, ds, q) && forall x :: x in xs ==> x in st.table
    ensures var r := SweepAll(st, xs, wd);
            && Base(r, ds, q) && st.kernel.queue <= r.kernel.queue && r.descendants == st.descendants
            && r.kernel.home == st.kernel.home && (forall x :: r.kernel.Live(x) ==> st.kernel.Live(x))
    decreases |xs|
  {
    if xs != [] {
      var s := SweepEntry(st, xs[0], wd);
      SweepEntryBase(st, ds, q, xs[0], wd);
      hide SweepEntry;
      SweepAllBase(s, ds, q, xs[1..], wd);
    }
  }

  lemma SweepEntryBase(st: State, ds: set<Adir>, q: Stake, y: int, wd: int)
    requires Base(st, ds, q) && y in st.table
    ensures var r := SweepEntry(st, y, wd);
            && Base(r, ds, q) && st.kernel.queue <= r.kernel.queue && r.descendants == st.descendants
            && r.kernel.home == st.kernel.home && (forall x :: r.kernel.Live(x) ==> st.kernel.Live(x))
  {
    var r := SweepEntry(st, y, wd);
    RemoveWatchHome(st.kernel, y);
    SweptEntries(st, r, ds, y, wd);
    SweptKin(st, r, ds, q, y, wd);
  }

  lemma SweptEntries(st: State, r: State, ds: set<Adir>, y: int, wd: int)
    requires y in st.table && r == SweepEntry(st, y, wd)
    requires forall x :: x in st.table ==> EntryFits(st.kernel, ds, x, st.table[x])
    ensures forall x :: x in r.table ==> EntryFits(r.kernel, ds, x, r.table[x])
  {
    SweptFor(st.table[y].watches, MoveWatch(wd));
    forall x | x in r.table ensures EntryFits(r.kernel, ds, x, r.table[x]) {
      assert EntryFits(st.kernel, ds, x, st.table[x]);
    }
  }

  lemma SweptKin(st: State, r: State, ds: set<Adir>, q: Stake, y: int, wd: int)
    requires st.kernel.WellFormed() && Kin(st, ds, q) && y in st.table && r == SweepEntry(st, y, wd)
    ensures Kin(r, ds, q) && forall x :: r.kernel.Live(x) ==> st.kernel.Live(x)
  {
    SweptFor(st.table[y].watches, MoveWatch(wd));
    RemoveWatchKeeps(st.kernel, y);
    hide Kin, Sweep, Kernel.RemoveWatch, Kernel.WellFormed, Kernel.Live;
    assert NoMore(st.table, r.table);
    assert DiesAlone(st, r, q);
    KinStays(st, r, ds, q);
  }

  lemma SweptFor(ws: seq<Watch>, w: Watch)
    ensures forall v :: v in Sweep(ws, w, 0) ==> v in ws
  {
    forall v | v in Sweep(ws, w, 0) ensures v in ws {
      SweepDropsOnlyTarget(ws, w, 0, v);
      assert multiset(Sweep(ws, w, 0))[v] > 0;
      assert v in multiset(ws);
    }
  }

  lemma ForgetBase(st: State, ds: set<Adir>, q: Stake, wd: int)
    requires Base(st, ds, q) && wd in st.table && !st.kernel.Live(wd)
    ensures Base(Forget(st, wd), ds, q) && st.kernel.queue <= Forget(st, wd).kernel.queue
    ensures Forget(st, wd).kernel.home == st.kernel.home
  {
    SweepAllBase(st, ds, q, Ancestors(st.table, wd), wd);
    var s := RemoveWatchMoves(st, wd);
    RemoveWatchesHome(s.kernel, DescendantsOf(s.table[wd].watches, s.descendants));
    var r := Forget(st, wd);
    forall x | x in r.table ensures EntryFits(r.kernel, ds, x, r.table[x]) {
      assert EntryFits(s.kernel, ds, x, s.table[x]);
    }
    ForgetMourned(s, r, ds, q, wd);
    KinStays(s, r, ds, q);
  }

  /** The descendants given up with a dead entry are of no use to the location at stake, nor are their own. */
  lemma ForgetMourned(s: State, r: State, ds: set<Adir>, q: Stake, wd: int)
    requires Base(s, ds, q) && wd in s.table && !s.kernel.Live(wd)
    requires r.kernel == RemoveWatches(s.kernel, DescendantsOf(s.table[wd].watches, s.descendants))
    requires r.descendants == s.descendants && NoMore(s.table, r.table)
    ensures DiesAlone(s, r, q)
  {
    RemoveWatchesKeeps(s.kernel, DescendantsOf(s.table[wd].watches, s.descendants));
    forall x, w, z | Registered(r.table, r.descendants, x, w, z) && s.kernel.Live(x) && !r.kernel.Live(x)
      ensures Mourned(r.kernel, q, z)
    {
      var v := DescendantsOfFor(s.table[wd].watches, s.descendants, x);
      assert Registered(s.table, s.descendants, wd, v, x);
      assert EntryFits(s.kernel, ds, x, s.table[x]);
      assert Registered(s.table, s.descendants, x, w, z);
      ClearFurther(q, s.kernel.home[x], s.kernel.home[z]);
    }
  }

  lemma {:induction false} DescendantsOfFor(ws: seq<Watch>, descendants: map<nat, seq<int>>, x: int)
    returns (w: Watch)
    requires x in DescendantsOf(ws, descendants)
    ensures w in ws && w.AutoscanWatch? && w.id in descendants && x in descendants[w.id]
  {
    if ws != [] {
      if ws[0].AutoscanWatch? && ws[0].id in descendants && x in descendants[ws[0].id] {
        w := ws[0];
      } else {
        w := DescendantsOfFor(ws[1..], descendants, x);
      }
    }
  }

  lemma RemoveUnknownBase(s: State, ds: set<Adir>, q: Stake, wd: int)
    requires Base(s, ds, q) && wd !in s.table
    ensures Base(s.(kernel := s.kernel.RemoveWatch(wd)), ds, q)
  {
    RemoveWatchHome(s.kernel, wd);
    RemoveWatchKeeps(s.kernel, wd);
    var r := s.(kernel := s.kernel.RemoveWatch(wd));
    KinStays(s, r, ds, q);
    forall x | x in r.table ensures EntryFits(r.kernel, ds, x, r.table[x]) {
      assert EntryFits(s.kernel, ds, x, s.table[x]);
    }
  }

  // ----- tree changes and releases -----

  lemma TreeStepBase(st: State, ds: set<Adir>, q: Stake, k': Kernel)
    requires Base(st, ds, q) && AtHome(k') && QueueOk(k') && DiesAlone(st, st.(kernel := k'), q)
    ensures Base(st.(kernel := k'), ds, q)
  {
    KinStays(st, st.(kernel := k'), ds, q);
    forall x | x in st.table ensures EntryFits(k', ds, x, st.table[x]) {
      assert EntryFits(st.kernel, ds, x, st.table[x]);
    }
  }

  /** A directory that is deleted is empty, so no descendant of it is live. */
  lemma RmdirMourned(st: State, ds: set<Adir>, q: Stake, p: Path, selfFirst: bool)
    requires Base(st, ds, q) && CanRmdir(st.kernel, p)
    ensures DiesAlone(st, st.(kernel := Rmdir(st.kernel, p, selfFirst)), q)
  {
    var r := st.(kernel := Rmdir(st.kernel, p, selfFirst));
    RmdirKernel(st.kernel, p, selfFirst);
    forall x, w, z | Registered(r.table, r.descendants, x, w, z) && st.kernel.Live(x) && !r.kernel.Live(x)
      ensures !r.kernel.Live(z)
    {
      assert EntryFits(st.kernel, ds, x, st.table[x]);
      LiveAtHome(st.kernel, x);
      HomeOf(st.kernel, p);
      assert KinFits(st.kernel, ds, q, st.table[x].path, x, w, z);
      if r.kernel.Live(z) { LiveAtHome(st.kernel, z); }
    }
  }

  lemma FileEventBase(st: State, ds: set<Adir>, q: Stake, ev: Event)
    requires Base(st, ds, q) && FileEvent(ev) && st.kernel.Live(ev.wd)
    ensures Base(st.(kernel := st.kernel.(queue := st.kernel.queue + [ev])), ds, q)
  {
    var k, k' := st.kernel, st.kernel.(queue := st.kernel.queue + [ev]);
    forall x ensures k'.Live(x) <==> k.Live(x) { SameLive(k, k', x); }
    AppendCalm(k, k', [ev]);
    TreeStepBase(st, ds, q, k');
  }

  lemma KinExtends(st: State, s: State, ds: set<Adir>, q: Stake)
    requires Kin(st, ds, q) && (forall x :: x in st.table ==> x < st.kernel.nextWd)
    requires Extends(st.kernel, s.kernel) && s == st.(kernel := s.kernel)
    ensures Kin(s, ds, q)
  {
    forall x, w, z | Registered(s.table, s.descendants, x, w, z)
      ensures KinFits(s.kernel, ds, q, s.table[x].path, x, w, z)
    {
      OldKinFits(st, s, ds, q, x, w, z);
    }
    forall x, w | Holds(s.table, x, w) && s.kernel.Live(x) ensures st.kernel.Live(x) {
      ExtendsLiveBack(st.kernel, s.kernel, x);
    }
  }

  lemma UnmonitorBase(st: State, ds: set<Adir>, q: Stake, p: Path, f: Adir)
    requires Base(st, ds, q) && Releasable(ds, q, f)
    ensures Base(UnmonitorDirectory(st, p, f), ds, q)
  {
    var (k, wd) := st.kernel.AddWatch(p);
    AddWatchExtends(st.kernel, p);
    var s := st.(kernel := k);
    ExtendsBase(st, s, ds, q);
    hide Base, Kernel.AddWatch, Extends;
    if wd in st.table {
      var i := FirstIndex(st.table[wd].watches, RegularFor(f.location));
      if i < |st.table[wd].watches| { DropWatchBase(s, ds, q, wd, i); }
    }
  }

  lemma ExtendsBase(st: State, s: State, ds: set<Adir>, q: Stake)
    requires Base(st, ds, q) && Extends(st.kernel, s.kernel) && s == st.(kernel := s.kernel)
    ensures Base(s, ds, q)
  {
    ExtendsHome(st.kernel, s.kernel);
    forall x | x in s.table ensures EntryFits(s.kernel, ds, x, s.table[x]) && x < st.kernel.nextWd {
      assert EntryFits(st.kernel, ds, x, st.table[x]);
    }
    hide AtHome, QueueOk, EntryFits;
    KinExtends(st, s, ds, q);
  }
}
