/**
 The watch manager's state and, as functions on that state, what each of its
 operations does. The class in AutoscanInotify.dfy carries the operations out in
 place and is proved against these functions.

 An autoscan watch object is a value with an id; its one mutable field, the list of
 descendant descriptors, is kept beside the table under that id. The "nonexisting
 path" array is compared by reference in the program, so it carries an id too.
 */
module WatchTable {
  import opened Wrappers
  import opened InotifyKernel

  const INOTIFY_ROOT := -1
  const INOTIFY_UNKNOWN_PARENT_WD := -2

  datatype Adir = Adir(location: Path, recursive: bool, hidden: bool, persistent: bool)

  datatype PathArray = PathArray(id: nat, comps: Path)

  datatype Watch =
    | AutoscanWatch(id: nat, startPoint: bool, adir: Adir, normPath: Path, nonexisting: Option<PathArray>)
    | MoveWatch(removeWd: int)
  {
    predicate Regular() {
      AutoscanWatch? && nonexisting.None?
    }

    predicate Missing() {
      AutoscanWatch? && nonexisting.Some?
    }
  }

  datatype Wd = Wd(path: Path, parentWd: int, watches: seq<Watch>)

  type Table = map<int, Wd>

  datatype State = State(kernel: Kernel, table: Table, descendants: map<nat, seq<int>>, nextId: nat)

  /** What the linear searches over an entry's watches look for. */
  datatype Query = RegularFor(location: Path) | MissingWith(arrayId: nat) | AnyStartPoint

  predicate Matches(q: Query, w: Watch) {
    match q
    case RegularFor(loc) => w.Regular() && w.adir.location == loc
    case MissingWith(id) => w.Missing() && w.nonexisting.value.id == id
    case AnyStartPoint => w.AutoscanWatch? && w.startPoint
  }

  /** The index of the first watch that matches, or the length when none does. */
  function FirstIndex(ws: seq<Watch>, q: Query): (r: nat)
    ensures r <= |ws|
    ensures forall j :: 0 <= j < r ==> !Matches(q, ws[j])
    ensures r < |ws| ==> Matches(q, ws[r])
  {
    if ws == [] then 0
    else if Matches(q, ws[0]) then 0
    else 1 + FirstIndex(ws[1..], q)
  }

  /** Array::removeUnordered: the last element takes the removed element's place. */
  function RemoveUnordered(ws: seq<Watch>, i: nat): seq<Watch>
    requires i < |ws|
  {
    ws[i := ws[|ws| - 1]][..|ws| - 1]
  }

  /** How every removal path drops a watch: the last one is never taken out, its descriptor is. */
  function DropWatch(st: State, wd: int, i: nat): State
    requires wd in st.table && i < |st.table[wd].watches|
  {
    var e := st.table[wd];
    if |e.watches| == 1 then
      st.(kernel := st.kernel.RemoveWatch(wd))
    else
      st.(table := st.table[wd := e.(watches := RemoveUnordered(e.watches, i))])
  }

  function AppendWatch(e: Wd, w: Watch): Wd {
    e.(watches := e.watches + [w])
  }

  function AddMoveWatch(st: State, p: Path, removeWd: int, parentWd: int): (r: (State, int))
    ensures st.table.Keys <= r.0.table.Keys && r.0.kernel.dirs == st.kernel.dirs
  {
    var (k, wd) := st.kernel.AddWatch(p);
    if wd < 0 then
      (st, wd)
    else
      var e := if wd in st.table then st.table[wd].(parentWd := parentWd) else Wd(p, parentWd, []);
      (st.(kernel := k, table := st.table[wd := AppendWatch(e, MoveWatch(removeWd))]), wd)
  }

  /** Move watches for wd on every proper ancestor of p from depth i down, root first. */
  function WatchPathForMoves(st: State, p: Path, wd: int, i: nat, parentWd: int): (r: (State, int))
    requires i <= |p|
    ensures st.table.Keys <= r.0.table.Keys && r.0.kernel.dirs == st.kernel.dirs
    decreases |p| - i
  {
    if i == |p| then
      (st, parentWd)
    else
      var (s, c) := AddMoveWatch(st, p[..i], wd, parentWd);
      WatchPathForMoves(s, p, wd, i + 1, c)
  }

  function AddDescendant(st: State, startPointWd: int, addWd: int, adir: Adir): State {
    if startPointWd !in st.table then
      st
    else
      var ws := st.table[startPointWd].watches;
      var i := FirstIndex(ws, RegularFor(adir.location));
      if i == |ws| then
        st
      else
        var id := ws[i].id;
        var ds := if id in st.descendants then st.descendants[id] else [];
        st.(descendants := st.descendants[id := ds + [addWd]])
  }

  /** The start-point part of monitorDirectory: move watches above, and the parent they end in. */
  function WatchAbove(st: State, p: Path, wd: int, startPoint: bool): (r: (State, int))
    ensures st.table.Keys <= r.0.table.Keys && r.0.kernel.dirs == st.kernel.dirs
  {
    if startPoint then WatchPathForMoves(st, p, wd, 0, INOTIFY_ROOT) else (st, INOTIFY_UNKNOWN_PARENT_WD)
  }

  /** The entry monitorDirectory works on: new, or the old one with an unknown parent filled in. */
  function EntryFor(t: Table, had: bool, p: Path, wd: int, parentWd: int): Wd
    requires had ==> wd in t
  {
    if !had then Wd(p, parentWd, [])
    else if parentWd >= 0 && t[wd].parentWd < 0 then t[wd].(parentWd := parentWd)
    else t[wd]
  }

  /** monitorDirectory when the directory exists. */
  function MonitorExisting(st: State, p: Path, adir: Adir, norm: Path, startPoint: bool,
                           missing: Option<PathArray>): (r: State)
    requires p in st.kernel.dirs
    ensures st.table.Keys <= r.table.Keys && r.kernel.dirs == st.kernel.dirs
  {
    var (k, wd) := st.kernel.AddWatch(p);
    var (s, parentWd) := WatchAbove(st.(kernel := k), p, wd, startPoint);
    Install(s, p, adir, norm, startPoint, missing, wd in st.table, wd, parentWd)
  }

  /** The second half of monitorDirectory: the entry, its watch, and the start point's descendants. */
  function Install(s: State, p: Path, adir: Adir, norm: Path, startPoint: bool, missing: Option<PathArray>,
                   had: bool, wd: int, parentWd: int): (r: State)
    requires had ==> wd in s.table
    ensures s.table.Keys <= r.table.Keys && r.kernel.dirs == s.kernel.dirs
  {
    var e := EntryFor(s.table, had, p, wd, parentWd);
    if had && missing.None? && FirstIndex(e.watches, RegularFor(adir.location)) < |e.watches| then
      s.(table := s.table[wd := e])
    else
      var w := AutoscanWatch(s.nextId, startPoint, adir, norm, missing);
      var s1 := s.(table := s.table[wd := AppendWatch(e, w)], nextId := s.nextId + 1);
      if startPoint then
        s1
      else
        var (k1, startPointWd) := s1.kernel.AddWatch(norm);
        AddDescendant(s1.(kernel := k1), startPointWd, wd, adir)
  }

  /** The length of the longest prefix of p that exists. */
  function Deepest(dirs: map<Path, Ino>, p: Path): (n: nat)
    requires [] in dirs
    ensures n <= |p| && p[..n] in dirs
    ensures forall m :: n < m <= |p| ==> p[..m] !in dirs
  {
    if p in dirs then
      assert p[..|p|] == p;
      |p|
    else
      var n := Deepest(dirs, Parent(p));
      assert forall m :: 0 <= m < |p| ==> Parent(p)[..m] == p[..m];
      assert p[..|p|] == p;
      n
  }

  function RemoveNonexistingMonitor(st: State, wd: int, arrayId: nat): (r: State)
    requires wd in st.table
    ensures st.table.Keys <= r.table.Keys && r.kernel.dirs == st.kernel.dirs
  {
    var ws := st.table[wd].watches;
    var i := FirstIndex(ws, MissingWith(arrayId));
    if i == |ws| then st else DropWatch(st, wd, i)
  }

  function RecheckNonexistingMonitor(st: State, curWd: int, arr: PathArray, adir: Adir, norm: Path): (r: State)
    requires [] in st.kernel.dirs
    requires curWd != -1 ==> curWd in st.table
    ensures st.table.Keys <= r.table.Keys && r.kernel.dirs == st.kernel.dirs
  {
    var n := Deepest(st.kernel.dirs, arr.comps);
    var s := if curWd != -1 then RemoveNonexistingMonitor(st, curWd, arr.id) else st;
    if n == |arr.comps| then
      MonitorExisting(s, arr.comps[..n], adir, norm, true, None)
    else
      MonitorExisting(s, arr.comps[..n], adir, norm, false, Some(arr))
  }

  function MonitorNonexisting(st: State, p: Path, adir: Adir, norm: Path): (r: State)
    requires [] in st.kernel.dirs
    ensures st.table.Keys <= r.table.Keys && r.kernel.dirs == st.kernel.dirs
  {
    RecheckNonexistingMonitor(st.(nextId := st.nextId + 1), -1, PathArray(st.nextId, p), adir, norm)
  }

  function MonitorDirectory(st: State, p: Path, adir: Adir, norm: Path, startPoint: bool,
                            missing: Option<PathArray>): (r: State)
    requires [] in st.kernel.dirs
    ensures st.table.Keys <= r.table.Keys && r.kernel.dirs == st.kernel.dirs
  {
    if p in st.kernel.dirs then
      MonitorExisting(st, p, adir, norm, startPoint, missing)
    else if startPoint && adir.persistent then
      MonitorNonexisting(st, p, adir, norm)
    else
      st
  }

  /** The loop of recheckNonexistingMonitors from index i. The bound n, the entry's length at
      the start, is never what stops it: see RecheckNeverGrows. */
  function RecheckFrom(st: State, wd: int, i: nat, n: nat): (r: State)
    requires wd in st.table && [] in st.kernel.dirs
    ensures st.table.Keys <= r.table.Keys && r.kernel.dirs == st.kernel.dirs
    decreases n - i
  {
    if i >= n || i >= |st.table[wd].watches| then
      st
    else
      RecheckFrom(RecheckOne(st, wd, i), wd, i + 1, n)
  }

  function RecheckOne(st: State, wd: int, i: nat): (r: State)
    requires wd in st.table && i < |st.table[wd].watches| && [] in st.kernel.dirs
    ensures st.table.Keys <= r.table.Keys && r.kernel.dirs == st.kernel.dirs
  {
    var w := st.table[wd].watches[i];
    if w.Missing() then
      RecheckNonexistingMonitor(st, wd, w.nonexisting.value, w.adir, w.normPath)
    else
      st
  }

  function RecheckNonexistingMonitors(st: State, wd: int): (r: State)
    requires wd in st.table && [] in st.kernel.dirs
    ensures st.table.Keys <= r.table.Keys && r.kernel.dirs == st.kernel.dirs
  {
    RecheckFrom(st, wd, 0, |st.table[wd].watches|)
  }

  /** What one move watch found by checkMoveWatches leads to for the descriptor it names. */
  function GiveUpMoved(st: State, removeWd: int): (r: State)
    requires [] in st.kernel.dirs
    ensures st.table.Keys <= r.table.Keys && r.kernel.dirs == st.kernel.dirs
  {
    if removeWd !in st.table then
      st
    else
      var s := RecheckNonexistingMonitors(st, removeWd);
      var s1 := s.(kernel := s.kernel.RemoveWatch(removeWd));
      var e := s1.table[removeWd];
      var i := FirstIndex(e.watches, AnyStartPoint);
      if i < |e.watches| && e.watches[i].adir.persistent then
        MonitorNonexisting(s1, e.path, e.watches[i].adir, e.watches[i].normPath)
      else
        s1
  }

  /** The loop of checkMoveWatches after at most `steps` iterations. */
  function CheckMoves(st: State, wd: int, steps: nat): (r: State)
    requires wd in st.table && [] in st.kernel.dirs
    ensures st.table.Keys <= r.table.Keys && r.kernel.dirs == st.kernel.dirs
  {
    if steps == 0 then st else CheckMoveAt(CheckMoves(st, wd, steps - 1), wd, steps - 1)
  }

  function CheckMoveAt(st: State, wd: int, i: nat): (r: State)
    requires wd in st.table && [] in st.kernel.dirs
    ensures st.table.Keys <= r.table.Keys && r.kernel.dirs == st.kernel.dirs
  {
    var ws := st.table[wd].watches;
    if i < |ws| && ws[i].MoveWatch? then GiveUpMoved(DropWatch(st, wd, i), ws[i].removeWd) else st
  }

  /** The entries met walking up parentWd from x; `avail` holds those not met before. */
  function Chain(t: Table, x: int, avail: set<int>): (r: seq<int>)
    ensures forall y :: y in r ==> y in t && y in avail && 0 <= y
    decreases |avail|
  {
    if x < 0 || x !in t || x !in avail then [] else [x] + Chain(t, t[x].parentWd, avail - {x})
  }

  /** The proper ancestors of wd by parentWd. */
  function Ancestors(t: Table, wd: int): (r: seq<int>)
    ensures forall y :: y in r ==> y in t && y != wd && 0 <= y
  {
    if wd in t then Chain(t, t[wd].parentWd, t.Keys - {wd}) else []
  }

  /** The removal loop of removeWatchMoves from index i: after a removal the swapped-in element is skipped. */
  function Sweep(ws: seq<Watch>, w: Watch, i: nat): (r: seq<Watch>)
    decreases |ws| - i
  {
    if i >= |ws| then ws
    else if ws[i] == w then Sweep(RemoveUnordered(ws, i), w, i + 1)
    else Sweep(ws, w, i + 1)
  }

  function SweepEntry(st: State, x: int, wd: int): (r: State)
    requires x in st.table
    ensures st.table.Keys == r.table.Keys && r.kernel.dirs == st.kernel.dirs
  {
    var ws := st.table[x].watches;
    if ws == [MoveWatch(wd)] then
      st.(kernel := st.kernel.RemoveWatch(x))
    else
      st.(table := st.table[x := st.table[x].(watches := Sweep(ws, MoveWatch(wd), 0))])
  }

  function SweepAll(st: State, xs: seq<int>, wd: int): (r: State)
    requires forall x :: x in xs ==> x in st.table
    ensures st.table.Keys == r.table.Keys && r.kernel.dirs == st.kernel.dirs
    decreases |xs|
  {
    if xs == [] then st else SweepAll(SweepEntry(st, xs[0], wd), xs[1..], wd)
  }

  function RemoveWatchMoves(st: State, wd: int): (r: State)
    ensures st.table.Keys == r.table.Keys && r.kernel.dirs == st.kernel.dirs
  {
    SweepAll(st, Ancestors(st.table, wd), wd)
  }

  /** The descendants registered with an entry's watches, in the order they are met. */
  function DescendantsOf(ws: seq<Watch>, descendants: map<nat, seq<int>>): seq<int> {
    if ws == [] then
      []
    else
      (if ws[0].AutoscanWatch? && ws[0].id in descendants then descendants[ws[0].id] else [])
      + DescendantsOf(ws[1..], descendants)
  }

  function RemoveDescendants(st: State, wd: int): (r: State)
    ensures st.table == r.table && r.kernel.dirs == st.kernel.dirs
  {
    if wd !in st.table then
      st
    else
      st.(kernel := RemoveWatches(st.kernel, DescendantsOf(st.table[wd].watches, st.descendants)))
  }

  /** The three clean-up calls for IN_IGNORED. */
  function Forget(st: State, wd: int): State {
    var s := RemoveDescendants(RemoveWatchMoves(st, wd), wd);
    s.(table := s.table - {wd})
  }

  function UnmonitorDirectory(st: State, p: Path, adir: Adir): (r: State)
    ensures st.table.Keys <= r.table.Keys && r.kernel.dirs == st.kernel.dirs
  {
    var (k, wd) := st.kernel.AddWatch(p);
    var s := st.(kernel := k);
    if wd < 0 || wd !in st.table then
      s
    else
      var ws := st.table[wd].watches;
      var i := FirstIndex(ws, RegularFor(adir.location));
      if i == |ws| then s else DropWatch(s, wd, i)
  }

  function MonitorEach(st: State, ps: seq<Path>, adir: Adir, norm: Path): (r: State)
    requires [] in st.kernel.dirs
    ensures st.table.Keys <= r.table.Keys && r.kernel.dirs == st.kernel.dirs
    decreases |ps|
  {
    if ps == [] then st
    else MonitorEach(MonitorDirectory(st, ps[0], adir, norm, false, None), ps[1..], adir, norm)
  }

  function UnmonitorEach(st: State, ps: seq<Path>, adir: Adir): (r: State)
    ensures st.table.Keys <= r.table.Keys && r.kernel.dirs == st.kernel.dirs
    decreases |ps|
  {
    if ps == [] then st else UnmonitorEach(UnmonitorDirectory(st, ps[0], adir), ps[1..], adir)
  }

  /** ps lists the directories strictly below p, in the order readdir led to them. */
  ghost predicate Listing(dirs: map<Path, Ino>, p: Path, ps: seq<Path>) {
    forall q :: q in ps <==> q in dirs && p < q
  }

  function MonitorRecursive(st: State, p: Path, adir: Adir, norm: Path, startPoint: bool, below: seq<Path>): (r: State)
    requires [] in st.kernel.dirs
    ensures st.table.Keys <= r.table.Keys && r.kernel.dirs == st.kernel.dirs
  {
    var s := MonitorDirectory(st, p, adir, norm, startPoint, None);
    if p in st.kernel.dirs then MonitorEach(s, below, adir, norm) else s
  }

  function UnmonitorRecursive(st: State, p: Path, adir: Adir, below: seq<Path>): (r: State)
    ensures st.table.Keys <= r.table.Keys && r.kernel.dirs == st.kernel.dirs
  {
    UnmonitorEach(UnmonitorDirectory(st, p, adir), below, adir)
  }

  /** getAppropriateAutoscan by path: the regular watch with the longest location that is a prefix. */
  function BestMatch(ws: seq<Watch>, path: Path): (r: Option<Watch>)
    ensures r.Some? ==> r.value in ws && r.value.Regular() && r.value.normPath <= path
    ensures r.None? ==> forall w :: w in ws && w.Regular() ==> !(w.normPath <= path)
    ensures r.Some? ==> forall w :: w in ws && w.Regular() && w.normPath <= path ==>
                                      |w.normPath| <= |r.value.normPath|
  {
    if ws == [] then None
    else
      var last := ws[|ws| - 1];
      var best := BestMatch(ws[..|ws| - 1], path);
      if last.Regular() && last.normPath <= path
         && (best.None? || |best.value.normPath| < |last.normPath|) then Some(last)
      else best
  }

  predicate SelfKind(kind: Kind) {
    kind.DeleteSelf? || kind.MoveSelf? || kind.Unmount?
  }

  /** The path an event is about. */
  function EventPath(e: Wd, ev: Event): Path {
    if SelfKind(ev.kind) || ev.kind.Ignored? then e.path else e.path + [ev.name]
  }

  /** Everything before the storage part: move watches, nonexisting paths, new directories. */
  function HandleDirectories(st: State, ev: Event, found: Option<Watch>, path: Path,
                             below: seq<Path>, steps: nat): (r: State)
    requires ev.wd in st.table && [] in st.kernel.dirs && (found.Some? ==> found.value.Regular())
    ensures st.table.Keys <= r.table.Keys && r.kernel.dirs == st.kernel.dirs
  {
    var s1 := if ev.kind.MoveSelf? then CheckMoves(st, ev.wd, steps) else st;
    var s2 := if SelfKind(ev.kind) then RecheckNonexistingMonitors(s1, ev.wd) else s1;
    var s3 := if ev.isDir && (ev.kind.Create? || ev.kind.MovedTo?)
              then RecheckNonexistingMonitors(s2, ev.wd) else s2;
    if ev.isDir && ev.kind.Create? && found.Some? && found.value.adir.recursive
       && (found.value.adir.hidden || !("." <= ev.name)) then
      MonitorRecursive(s3, path, found.value.adir, found.value.normPath, false, below)
    else
      s3
  }

  /** The part guarded by a matching autoscan directory. IN_MOVE_SELF is a non-zero constant,
      so the descriptor is removed for all three kinds. */
  function HandleContent(st: State, ev: Event, found: Watch, path: Path, below: seq<Path>): (r: State)
    requires ev.wd in st.table && [] in st.kernel.dirs && found.Regular()
    ensures st.table.Keys <= r.table.Keys && r.kernel.dirs == st.kernel.dirs
  {
    if SelfKind(ev.kind) then
      var s := st.(kernel := st.kernel.RemoveWatch(ev.wd));
      var ws := s.table[ev.wd].watches;
      var i := FirstIndex(ws, AnyStartPoint);
      if i < |ws| && found.adir.persistent then
        MonitorNonexisting(s, path, ws[i].adir, ws[i].normPath)
      else
        s
    else if (ev.kind.CloseWrite? || ev.kind.MovedTo?) && ev.isDir then
      MonitorRecursive(st, path, found.adir, found.normPath, false, below)
    else
      st
  }

  /** One iteration of the event loop on the event at the head of the queue. */
  function HandleEvent(st: State, below: seq<Path>, steps: nat): (r: State)
    requires st.kernel.queue != [] && [] in st.kernel.dirs
    ensures r.kernel.dirs == st.kernel.dirs
  {
    var ev := st.kernel.queue[0];
    var s := Dequeued(st);
    if ev.wd !in s.table then
      s.(kernel := s.kernel.RemoveWatch(ev.wd))
    else
      var s1 := Dispatch(s, ev, below, steps);
      if ev.kind.Ignored? then Forget(s1, ev.wd) else s1
  }

  function Dequeued(st: State): State
    requires st.kernel.queue != []
  {
    st.(kernel := st.kernel.(queue := st.kernel.queue[1..]))
  }

  /** The handling of an event on a known descriptor, up to the IN_IGNORED clean-up. */
  function Dispatch(s: State, ev: Event, below: seq<Path>, steps: nat): (r: State)
    requires ev.wd in s.table && [] in s.kernel.dirs
    ensures s.table.Keys <= r.table.Keys && r.kernel.dirs == s.kernel.dirs
  {
    var path := EventPath(s.table[ev.wd], ev);
    var found := BestMatch(s.table[ev.wd].watches, path);
    var s1 := HandleDirectories(s, ev, found, path, below, steps);
    if found.Some? then HandleContent(s1, ev, found.value, path, below) else s1
  }
}
