/**
 Directories come and go, without renames: the events the kernel queues for it, and what holds of the
 kernel while nothing else happens to the tree. A live descriptor stays at the path it was obtained for.
 */
module TreeSteps {
  import opened InotifyKernel
  import opened WatchInvariant
  import opened WatchEffects

  // ----- creation and deletion -----

  ghost predicate CanMkdir(k: Kernel, p: Path) {
    p != [] && p !in k.dirs && Parent(p) in k.dirs
  }

  function ParentEvents(k: Kernel, p: Path, kind: Kind): seq<Event>
    requires p != []
  {
    if WatchOf(k, Parent(p)) >= 1 then [Event(WatchOf(k, Parent(p)), kind, true, LastName(p))] else []
  }

  function Mkdir(k: Kernel, p: Path): Kernel
    requires p != []
  {
    k.(dirs := k.dirs[p := k.nextIno], nextIno := k.nextIno + 1, queue := k.queue + ParentEvents(k, p, Create))
  }

  ghost predicate CanRmdir(k: Kernel, p: Path) {
    p != [] && p in k.dirs && forall q :: q in k.dirs ==> !(p < q)
  }

  function SelfEvents(k: Kernel, p: Path): seq<Event> {
    if WatchOf(k, p) >= 1 then [DeleteSelfEvent(WatchOf(k, p)), IgnoredEvent(WatchOf(k, p))] else []
  }

  /** The parent's event may come before or after the two of the directory itself. */
  function Rmdir(k: Kernel, p: Path, selfFirst: bool): Kernel
    requires p != [] && p in k.dirs
  {
    var above := ParentEvents(k, p, Delete);
    k.(dirs := k.dirs - {p}, wds := k.wds - {k.dirs[p]},
       queue := k.queue + (if selfFirst then SelfEvents(k, p) + above else above + SelfEvents(k, p)))
  }

  predicate FileEvent(ev: Event) {
    !ev.isDir && (ev.kind.Create? || ev.kind.Delete? || ev.kind.CloseWrite? || ev.kind.MovedFrom? || ev.kind.MovedTo?)
  }

  /** Directories come and go one at a time, files may be touched; no directory is renamed. */
  ghost predicate TreeStep(k: Kernel, k': Kernel) {
    || (exists p :: CanMkdir(k, p) && k' == Mkdir(k, p))
    || (exists p, selfFirst :: CanRmdir(k, p) && k' == Rmdir(k, p, selfFirst))
    || (exists ev :: FileEvent(ev) && k.Live(ev.wd) && k' == k.(queue := k.queue + [ev]))
  }

  // ----- without renames -----

  /** Without renames a live descriptor watches the directory at its home. */
  ghost predicate AtHome(k: Kernel) {
    && k.WellFormed()
    && (forall i :: i in k.wds ==>
          k.wds[i] in k.home && k.home[k.wds[i]] in k.dirs && k.dirs[k.home[k.wds[i]]] == i)
  }

  predicate Calm(ev: Event) {
    && !ev.kind.MoveSelf? && !ev.kind.Unmount?
    && (ev.isDir ==> ev.kind.Create? || ev.kind.Delete? || ev.kind.DeleteSelf?)
    && (ev.kind.DeleteSelf? ==> ev == DeleteSelfEvent(ev.wd))
  }

  ghost predicate QueueOk(k: Kernel) {
    && (forall ev :: ev in k.queue ==>
          Calm(ev) && ev.wd < k.nextWd && (ev.kind.Ignored? || ev.kind.DeleteSelf? ==> !k.Live(ev.wd)))
    && (forall i, j :: 0 <= i < j < |k.queue| && k.queue[i].kind.Ignored? && k.queue[j].kind.DeleteSelf?
          ==> k.queue[i].wd != k.queue[j].wd)
  }

  lemma ExtendsHome(k: Kernel, k': Kernel)
    requires AtHome(k) && QueueOk(k) && Extends(k, k')
    ensures AtHome(k') && QueueOk(k')
  {
    forall ev | ev in k'.queue && k'.Live(ev.wd) ensures k.Live(ev.wd) {
      ExtendsLiveBack(k, k', ev.wd);
    }
  }

  lemma RemoveWatchHome(k: Kernel, wd: int)
    requires AtHome(k) && QueueOk(k)
    ensures var r := k.RemoveWatch(wd);
            AtHome(r) && QueueOk(r) && k.queue <= r.queue
  {
    RemoveWatchKeeps(k, wd);
  }

  lemma {:induction false} RemoveWatchesHome(k: Kernel, wds: seq<int>)
    requires AtHome(k) && QueueOk(k)
    ensures var r := RemoveWatches(k, wds);
            AtHome(r) && QueueOk(r) && k.queue <= r.queue
    decreases |wds|
  {
    if wds != [] {
      RemoveWatchHome(k, wds[0]);
      RemoveWatchesHome(k.RemoveWatch(wds[0]), wds[1..]);
    }
  }

  lemma HomeOf(k: Kernel, p: Path)
    requires AtHome(k) && WatchOf(k, p) >= 1
    ensures WatchOf(k, p) in k.home && k.home[WatchOf(k, p)] == p && k.Live(WatchOf(k, p))
  {
  }

  lemma LiveAtHome(k: Kernel, x: int)
    requires AtHome(k) && k.Live(x)
    ensures x in k.home && WatchOf(k, k.home[x]) == x
  {
  }

  lemma SameLive(k: Kernel, k': Kernel, x: int)
    requires k.wds == k'.wds
    ensures k.Live(x) <==> k'.Live(x)
  {
    if k.Live(x) { var i :| i in k.wds && k.wds[i] == x; assert i in k'.wds && k'.wds[i] == x; }
    if k'.Live(x) { var i :| i in k'.wds && k'.wds[i] == x; assert i in k.wds && k.wds[i] == x; }
  }

  // ----- each step -----

  lemma AppendCalm(k: Kernel, k': Kernel, more: seq<Event>)
    requires QueueOk(k) && k'.queue == k.queue + more && k'.nextWd == k.nextWd
    requires forall x :: k'.Live(x) ==> k.Live(x)
    requires forall ev :: ev in more ==>
               Calm(ev) && ev.wd < k.nextWd && (ev.kind.Ignored? || ev.kind.DeleteSelf? ==> !k'.Live(ev.wd))
    requires forall ev :: ev in more && ev.kind.DeleteSelf? ==> k.Live(ev.wd)
    requires forall i, j :: 0 <= i < j < |more| && more[i].kind.Ignored? ==> !more[j].kind.DeleteSelf?
    ensures QueueOk(k')
  {
    var q := k'.queue;
    forall i, j | 0 <= i < j < |q| && q[i].kind.Ignored? && q[j].kind.DeleteSelf? ensures q[i].wd != q[j].wd {
      if i < |k.queue| <= j {
        assert q[i] in k.queue && q[j] in more;
      }
    }
  }

  lemma MkdirKernel(k: Kernel, p: Path)
    requires AtHome(k) && QueueOk(k) && CanMkdir(k, p)
    ensures AtHome(Mkdir(k, p)) && QueueOk(Mkdir(k, p)) && k.queue <= Mkdir(k, p).queue
  {
    var k' := Mkdir(k, p);
    forall x ensures k'.Live(x) <==> k.Live(x) { SameLive(k, k', x); }
    AppendCalm(k, k', ParentEvents(k, p, Create));
  }

  lemma RmdirWellFormed(k: Kernel, p: Path, selfFirst: bool)
    requires AtHome(k) && CanRmdir(k, p)
    ensures AtHome(Rmdir(k, p, selfFirst))
  {
    var k' := Rmdir(k, p, selfFirst);
    forall q | q in k'.dirs && q != [] ensures Parent(q) in k'.dirs {
      assert Parent(q) in k.dirs;
      assert Parent(q) < q;
    }
  }

  lemma RmdirKernel(k: Kernel, p: Path, selfFirst: bool)
    requires AtHome(k) && QueueOk(k) && CanRmdir(k, p)
    ensures var k' := Rmdir(k, p, selfFirst);
            && AtHome(k') && QueueOk(k') && k.queue <= k'.queue
            && (forall x :: k'.Live(x) <==> k.Live(x) && x != WatchOf(k, p))
            && (WatchOf(k, p) >= 1 ==>
                  DeleteSelfEvent(WatchOf(k, p)) in k'.queue && IgnoredEvent(WatchOf(k, p)) in k'.queue)
  {
    var k' := Rmdir(k, p, selfFirst);
    RmdirWellFormed(k, p, selfFirst);
    RmdirLive(k, p, selfFirst);
    var self, above := SelfEvents(k, p), ParentEvents(k, p, Delete);
    assert WatchOf(k, Parent(p)) < k.nextWd && WatchOf(k, p) < k.nextWd;
    if selfFirst {
      RmdirQueue(k, k', p, self + above);
    } else {
      RmdirQueue(k, k', p, above + self);
    }
    if WatchOf(k, p) >= 1 {
      assert self[0] in k'.queue && self[1] in k'.queue;
    }
  }

  lemma RmdirQueue(k: Kernel, k': Kernel, p: Path, more: seq<Event>)
    requires QueueOk(k) && p != [] && k'.queue == k.queue + more && k'.nextWd == k.nextWd
    requires || more == SelfEvents(k, p) + ParentEvents(k, p, Delete)
             || more == ParentEvents(k, p, Delete) + SelfEvents(k, p)
    requires forall x :: k'.Live(x) <==> k.Live(x) && x != WatchOf(k, p)
    requires WatchOf(k, p) >= 1 ==> k.Live(WatchOf(k, p))
    requires WatchOf(k, Parent(p)) < k.nextWd && WatchOf(k, p) < k.nextWd
    ensures QueueOk(k')
  {
    AppendCalm(k, k', more);
  }

  lemma RmdirLive(k: Kernel, p: Path, selfFirst: bool)
    requires AtHome(k) && CanRmdir(k, p)
    ensures forall x :: Rmdir(k, p, selfFirst).Live(x) <==> k.Live(x) && x != WatchOf(k, p)
    ensures WatchOf(k, p) >= 1 ==> k.Live(WatchOf(k, p))
  {
    var k' := Rmdir(k, p, selfFirst);
    forall x | k.Live(x) && x != WatchOf(k, p) ensures k'.Live(x) {
      var i :| i in k.wds && k.wds[i] == x;
      assert i in k'.wds && k'.wds[i] == x;
    }
  }

  /** The tree steps respect the kernel contract. */
  lemma TreeStepIsEnvironment(k: Kernel, k': Kernel)
    requires AtHome(k) && QueueOk(k) && TreeStep(k, k')
    ensures EnvironmentStep(k, k')
  {
    if p :| CanMkdir(k, p) && k' == Mkdir(k, p) {
      MkdirKernel(k, p);
      forall x ensures k'.Live(x) <==> k.Live(x) { SameLive(k, k', x); }
    } else if p, selfFirst :| CanRmdir(k, p) && k' == Rmdir(k, p, selfFirst) {
      RmdirKernel(k, p, selfFirst);
      assert WatchOf(k, p) == -1 || WatchOf(k, p) >= 1;
    } else {
      forall x ensures k'.Live(x) <==> k.Live(x) { SameLive(k, k', x); }
    }
  }
}
