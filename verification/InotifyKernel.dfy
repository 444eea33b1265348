/**
 The second party of the watch protocol: a directory tree and the inotify instance
 of one process, as described in inotify(7).

 A directory is an inode; a path names at most one inode and an inode has at most
 one path. A watch descriptor belongs to an inode, so a renamed directory keeps its
 descriptor. Descriptors are never reused, removal (explicit or by deletion) queues
 an IN_IGNORED event, and the event queue does not overflow.
 */
module InotifyKernel {

  type Name = string
  type Path = seq<Name>
  type Ino = nat

  datatype Kind =
    | Create | Delete | CloseWrite | MovedFrom | MovedTo
    | DeleteSelf | MoveSelf | Unmount | Ignored

  datatype Event = Event(wd: int, kind: Kind, isDir: bool, name: Name)

  function IgnoredEvent(wd: int): Event {
    Event(wd, Ignored, false, "")
  }

  function DeleteSelfEvent(wd: int): Event {
    Event(wd, DeleteSelf, true, "")
  }

  function Parent(p: Path): Path
    requires p != []
  {
    p[..|p| - 1]
  }

  function LastName(p: Path): Name
    requires p != []
  {
    p[|p| - 1]
  }

  datatype Kernel = Kernel(
    dirs: map<Path, Ino>,   // the directories that exist now
    wds: map<Ino, int>,     // the live watch descriptors
    home: map<int, Path>,   // the path through which each descriptor was first obtained
    nextIno: Ino,
    nextWd: int,
    queue: seq<Event>)
  {
    predicate Live(wd: int) {
      exists i :: i in wds && wds[i] == wd
    }

    /** The tree has a root and is closed under parents; inodes and descriptors are unique. */
    ghost predicate WellFormed() {
      && [] in dirs
      && (forall p :: p in dirs && p != [] ==> Parent(p) in dirs)
      && (forall p :: p in dirs ==> dirs[p] < nextIno)
      && (forall p, q :: p in dirs && q in dirs && dirs[p] == dirs[q] ==> p == q)
      && 1 <= nextWd
      && (forall i :: i in wds ==> i < nextIno && 1 <= wds[i] < nextWd)
      && (forall i, j :: i in wds && j in wds && wds[i] == wds[j] ==> i == j)
    }

    /** inotify_add_watch: the descriptor of an existing directory, old or fresh; -1 (ENOENT) otherwise. */
    function AddWatch(p: Path): (r: (Kernel, int)) {
      if p !in dirs then
        (this, -1)
      else if dirs[p] in wds then
        (this, wds[dirs[p]])
      else
        (this.(wds := wds[dirs[p] := nextWd], home := home[nextWd := p], nextWd := nextWd + 1), nextWd)
    }

    /** inotify_rm_watch: a dead descriptor is left alone, a live one dies and is announced. */
    function RemoveWatch(wd: int): (r: Kernel)
      ensures r.dirs == dirs && r.nextIno == nextIno && r.nextWd == nextWd && r.home == home
    {
      if Live(wd) then
        this.(wds := map i | i in wds && wds[i] != wd :: wds[i], queue := queue + [IgnoredEvent(wd)])
      else
        this
    }
  }

  /** inotify_rm_watch for each of a list of descriptors. */
  function RemoveWatches(k: Kernel, wds: seq<int>): (r: Kernel)
    ensures r.dirs == k.dirs && r.nextIno == k.nextIno && r.nextWd == k.nextWd && r.home == k.home
    decreases |wds|
  {
    if wds == [] then k else RemoveWatches(k.RemoveWatch(wds[0]), wds[1..])
  }

  lemma AddWatchKeeps(k: Kernel, p: Path)
    requires k.WellFormed()
    ensures var (r, wd) := k.AddWatch(p);
            && r.WellFormed() && r.dirs == k.dirs && r.queue == k.queue && r.nextIno == k.nextIno
            && k.nextWd <= r.nextWd
            && (wd < 0 <==> p !in k.dirs)
            && (p in k.dirs ==> r.Live(wd) && 1 <= wd < r.nextWd && WatchOf(r, p) == wd)
            && (p !in k.dirs ==> r == k && wd == -1)
            && (forall i :: i in k.wds ==> i in r.wds && r.wds[i] == k.wds[i])
            && (forall x :: k.Live(x) ==> r.Live(x))
            && (forall x :: r.Live(x) ==> k.Live(x) || x == wd)
            && (!k.Live(wd) && 0 <= wd ==> wd == k.nextWd)
  {
    var (r, wd) := k.AddWatch(p);
    assert forall i :: i in k.wds ==> i in r.wds && r.wds[i] == k.wds[i];
    forall x | k.Live(x) ensures r.Live(x) {
      var i :| i in k.wds && k.wds[i] == x;
      assert i in r.wds && r.wds[i] == x;
    }
    if p in k.dirs {
      assert k.dirs[p] in r.wds && r.wds[k.dirs[p]] == wd;
    }
  }

  /** The descriptor watching the directory now at p, or -1. */
  function WatchOf(k: Kernel, p: Path): int {
    if p in k.dirs && k.dirs[p] in k.wds then k.wds[k.dirs[p]] else -1
  }

  /** Watching p changes the descriptor of no directory that has one, and only to a fresh one otherwise. */
  lemma AddWatchOf(k: Kernel, p: Path, q: Path)
    requires k.WellFormed()
    ensures var k' := k.AddWatch(p).0;
            && (WatchOf(k, q) >= 1 ==> WatchOf(k', q) == WatchOf(k, q))
            && (WatchOf(k', q) == WatchOf(k, q) || WatchOf(k', q) == k.nextWd)
  {
  }

  /** Removing a descriptor takes it from its directory and no other from any. */
  lemma RemoveWatchOf(k: Kernel, wd: int, q: Path)
    ensures WatchOf(k.RemoveWatch(wd), q) == if WatchOf(k, q) == wd then -1 else WatchOf(k, q)
  {
  }

  lemma RemoveWatchKeeps(k: Kernel, wd: int)
    requires k.WellFormed()
    ensures var r := k.RemoveWatch(wd);
            && r.WellFormed()
            && !r.Live(wd)
            && (k.Live(wd) ==> IgnoredEvent(wd) in r.queue)
            && (forall x :: r.Live(x) ==> k.Live(x))
            && (forall x :: k.Live(x) && x != wd ==> r.Live(x))
            && k.queue <= r.queue
  {
    var r := k.RemoveWatch(wd);
    forall x | k.Live(x) && x != wd ensures r.Live(x) {
      var i :| i in k.wds && k.wds[i] == x;
      assert i in r.wds;
    }
  }

  lemma {:induction false} RemoveWatchesKeeps(k: Kernel, wds: seq<int>)
    requires k.WellFormed()
    ensures var r := RemoveWatches(k, wds);
            && r.WellFormed()
            && (forall d :: d in wds ==> !r.Live(d))
            && (forall d :: k.Live(d) && !r.Live(d) ==> d in wds && IgnoredEvent(d) in r.queue)
            && (forall x :: r.Live(x) ==> k.Live(x))
            && k.queue <= r.queue
    decreases |wds|
  {
    if wds != [] {
      var k1 := k.RemoveWatch(wds[0]);
      RemoveWatchKeeps(k, wds[0]);
      RemoveWatchesKeeps(k1, wds[1..]);
      var r := RemoveWatches(k, wds);
      assert r == RemoveWatches(k1, wds[1..]);
      forall d | d in wds ensures !r.Live(d) {
        if d != wds[0] { assert d in wds[1..]; }
      }
      forall d | k.Live(d) && !r.Live(d) ensures d in wds && IgnoredEvent(d) in r.queue {
        if k1.Live(d) {
          assert d in wds[1..];
        } else {
          assert d == wds[0] && IgnoredEvent(d) in k1.queue;
          assert k1.queue <= r.queue;
        }
      }
    }
  }
}
