/**
 The watch manager itself: the operations of AutoscanInotify on the fields they
 update, each proved to compute the function of the same name in WatchTable.
 */
module AutoscanManager {
  import opened Wrappers
  import opened InotifyKernel
  import opened WatchTable
  import opened WatchInvariant
  import opened WatchCleanup
  import opened WatchMoves
  import opened WatchPersistence
  import opened PersistentRuns

  class AutoscanInotify {
    var kernel: Kernel
    var watches: Table
    var descendants: map<nat, seq<int>>
    var nextId: nat

    ghost function View(): State
      reads this
    {
      State(kernel, watches, descendants, nextId)
    }

    ghost predicate Valid()
      reads this
    {
      Inv(View())
    }

    constructor (k: Kernel)
      requires k.WellFormed() && k.wds == map[] && k.queue == []
      ensures Valid() && Plain(watches) && Initial(View()) && kernel == k && descendants == map[]
    {
      kernel := k;
      watches := map[];
      descendants := map[];
      nextId := 0;
      new;
      ghost var rank: int -> nat := x => 0;
      assert Ranked(watches, rank);
    }

    // ----- the Inotify wrapper -----

    method AddWatch(p: Path) returns (wd: int)
      requires Valid()
      modifies this`kernel
      ensures (kernel, wd) == old(kernel).AddWatch(p) && Valid()
      ensures wd >= 0 <==> p in old(kernel).dirs
      ensures wd >= 0 ==> wd >= 1
    {
      AddWatchInv(View(), p);
      AddWatchKeeps(kernel, p);
      var (k, d) := kernel.AddWatch(p);
      kernel, wd := k, d;
    }

    method RemoveWatch(wd: int)
      modifies this`kernel
      ensures kernel == old(kernel).RemoveWatch(wd)
      ensures old(Valid()) ==> Valid()
    {
      if Inv(View()) { RemoveWatchInv(View(), wd); }
      kernel := kernel.RemoveWatch(wd);
    }

    // ----- searches over one entry -----

    method GetAppropriateAutoscan(wd: int, adir: Adir) returns (found: Option<Watch>)
      requires wd in watches
      ensures var ws := watches[wd].watches;
              var i := FirstIndex(ws, RegularFor(adir.location));
              found == if i < |ws| then Some(ws[i]) else None
    {
      var ws := watches[wd].watches;
      for i := 0 to |ws|
        invariant forall j :: 0 <= j < i ==> !Matches(RegularFor(adir.location), ws[j])
      {
        if ws[i].AutoscanWatch? && ws[i].nonexisting.None? && ws[i].adir.location == adir.location {
          assert Matches(RegularFor(adir.location), ws[i]);
          return Some(ws[i]);
        }
      }
      return None;
    }

    method GetAppropriateAutoscanForPath(wd: int, path: Path) returns (best: Option<Watch>)
      requires wd in watches
      ensures best == BestMatch(watches[wd].watches, path)
    {
      hide BestMatch;
      var ws := watches[wd].watches;
      best := None;
      for i := 0 to |ws|
        invariant best == BestMatch(ws[..i], path)
      {
        var w := ws[i];
        BestOfOneMore(ws, i, path);
        if w.AutoscanWatch? && w.nonexisting.None? && w.normPath <= path {
          if best.Some? {
            if |best.value.normPath| < |w.normPath| { best := Some(w); }
          } else {
            best := Some(w);
          }
        }
      }
      assert ws[..|ws|] == ws;
    }

    method GetStartPoint(wd: int) returns (found: Option<Watch>)
      requires wd in watches
      ensures var ws := watches[wd].watches;
              var i := FirstIndex(ws, AnyStartPoint);
              found == if i < |ws| then Some(ws[i]) else None
    {
      var ws := watches[wd].watches;
      for i := 0 to |ws|
        invariant forall j :: 0 <= j < i ==> !Matches(AnyStartPoint, ws[j])
      {
        if ws[i].AutoscanWatch? && ws[i].startPoint {
          assert Matches(AnyStartPoint, ws[i]);
          return Some(ws[i]);
        }
      }
      return None;
    }

    /** The common removal: the descriptor if the watch is the last one, else removeUnordered. */
    method Drop(wd: int, i: nat)
      requires Valid() && wd in watches && i < |watches[wd].watches|
      modifies this`kernel, this`watches
      ensures View() == DropWatch(old(View()), wd, i) && Valid()
    {
      DropWatchInv(View(), wd, i);
      var ws := watches[wd].watches;
      if |ws| == 1 {
        RemoveWatch(wd);
      } else {
        watches := watches[wd := watches[wd].(watches := RemoveUnordered(ws, i))];
      }
    }

    method RemoveFromWdObj(wd: int, toRemove: Watch) returns (ok: bool)
      requires Valid() && wd in watches
      modifies this`kernel, this`watches
      ensures Valid() && ok == (toRemove in old(watches)[wd].watches)
      ensures !ok ==> View() == old(View())
      ensures ok ==> exists i :: 0 <= i < |old(watches)[wd].watches| && old(watches)[wd].watches[i] == toRemove
                                 && toRemove !in old(watches)[wd].watches[..i]
                                 && View() == DropWatch(old(View()), wd, i)
    {
      var ws := watches[wd].watches;
      for i := 0 to |ws|
        invariant View() == old(View())
        invariant toRemove !in ws[..i]
      {
        if ws[i] == toRemove {
          Drop(wd, i);
          return true;
        }
      }
      assert ws[..|ws|] == ws;
      return false;
    }

    // ----- move watches -----

    method AddMoveWatch(p: Path, removeWd: int, parentWd: int) returns (wd: int)
      requires kernel.WellFormed()
      modifies this`kernel, this`watches
      ensures (View(), wd) == WatchTable.AddMoveWatch(old(View()), p, removeWd, parentWd)
      ensures kernel.WellFormed()
    {
      AddWatchKeeps(kernel, p);
      var (k, d) := kernel.AddWatch(p);
      kernel, wd := k, d;
      if wd >= 0 {
        if wd !in watches {
          watches := watches[wd := Wd(p, parentWd, [])];
        } else {
          var parentWdSet := watches[wd].parentWd;
          if parentWdSet >= 0 {
            if parentWd != parentWdSet {
              watches := watches[wd := watches[wd].(parentWd := parentWd)];
            }
          } else {
            watches := watches[wd := watches[wd].(parentWd := parentWd)];
          }
        }
        watches := watches[wd := AppendWatch(watches[wd], MoveWatch(removeWd))];
        ghost var t := old(watches);
        ghost var e := if wd in t then t[wd].(parentWd := parentWd) else Wd(p, parentWd, []);
        assert watches == t[wd := AppendWatch(e, MoveWatch(removeWd))];
      }
    }

    method WatchPathForMoves(p: Path, wd: int) returns (parentWd: int)
      requires kernel.WellFormed()
      modifies this`kernel, this`watches
      ensures (View(), parentWd) == WatchTable.WatchPathForMoves(old(View()), p, wd, 0, INOTIFY_ROOT)
      ensures kernel.WellFormed()
    {
      parentWd := INOTIFY_ROOT;
      for i := 0 to |p|
        invariant kernel.WellFormed()
        invariant nextId == old(nextId) && descendants == old(descendants)
        invariant WatchTable.WatchPathForMoves(old(View()), p, wd, 0, INOTIFY_ROOT)
               == WatchTable.WatchPathForMoves(View(), p, wd, i, parentWd)
      {
        parentWd := AddMoveWatch(p[..i], wd, parentWd);
      }
    }

    /** The inner loop of removeWatchMoves on one ancestor. */
    method SweepMoves(x: int, wd: int)
      requires x in watches
      modifies this`kernel, this`watches
      ensures View() == SweepEntry(old(View()), x, wd)
    {
      var i := 0;
      ghost var ws0 := watches[x].watches;
      var w := MoveWatch(wd);
      while i < |watches[x].watches|
        invariant x in watches
        invariant ws0 != [w] ==>
                    kernel == old(kernel) && Sweep(ws0, w, 0) == Sweep(watches[x].watches, w, i)
                    && watches == old(watches)[x := old(watches)[x].(watches := watches[x].watches)]
        invariant ws0 == [w] ==>
                    watches == old(watches) && i <= 1
                    && kernel == (if i == 0 then old(kernel) else old(kernel).RemoveWatch(x))
        invariant i == 0 ==> watches[x].watches == ws0
        invariant |watches[x].watches| == 1 && i == 0 ==> |ws0| == 1
        decreases |watches[x].watches| - i
      {
        var ws := watches[x].watches;
        if ws[i].MoveWatch? && ws[i].removeWd == wd {
          if |ws| == 1 {
            assert ws0 == [w];
            RemoveWatch(x);
          } else {
            watches := watches[x := watches[x].(watches := RemoveUnordered(ws, i))];
          }
        }
        i := i + 1;
      }
    }

    method RemoveWatchMoves(wd: int)
      requires Acyclic(watches)
      modifies this`kernel, this`watches
      ensures View() == WatchTable.RemoveWatchMoves(old(View()), wd)
    {
      hide Sweep, Chain, SweepEntry;
      ghost var t0 := watches;
      ghost var up := Ancestors(t0, wd);
      ghost var n := 0;
      assert up[0..] == up && forall i :: 0 <= i < |up| ==> up[i] in up;
      var first := true;
      var checkWd := wd;
      while true
        invariant SameShape(t0, watches) && n <= |up|
        invariant first ==> checkWd == wd && n == 0
        invariant !first ==> 0 <= checkWd && if n < |up| then checkWd == up[n] else checkWd !in t0
        invariant !first ==> wd in t0
        invariant Remaining(View(), up, n, wd) == WatchTable.RemoveWatchMoves(old(View()), wd)
        decreases first, |up| - n
      {
        if checkWd !in watches {
          break;
        }
        if first {
          first := false;
        } else {
          SweepStep(View(), up, n, wd, t0);
          SweepMoves(checkWd, wd);
          n := n + 1;
        }
        checkWd := watches[checkWd].parentWd;
        assert checkWd == NextUp(t0, wd, up, n);
        AncestorsWalk(t0, wd, n);
        if checkWd < 0 {
          break;
        }
      }
    }

    method RemoveDescendants(wd: int)
      modifies this`kernel
      ensures View() == WatchTable.RemoveDescendants(old(View()), wd)
    {
      if wd !in watches { return; }
      var ws := watches[wd].watches;
      ghost var all := DescendantsOf(ws, descendants);
      assert ws[0..] == ws;
      for i := 0 to |ws|
        invariant RemoveWatches(kernel, DescendantsOf(ws[i..], descendants)) == RemoveWatches(old(kernel), all)
      {
        assert ws[i..][0] == ws[i] && ws[i..][1..] == ws[i + 1..];
        if ws[i].AutoscanWatch? && ws[i].id in descendants {
          var ds := descendants[ws[i].id];
          ghost var more := DescendantsOf(ws[i + 1..], descendants);
          assert ds[0..] == ds;
          assert DescendantsOf(ws[i..], descendants) == ds + more;
          for j := 0 to |ds|
            invariant RemoveWatches(kernel, ds[j..] + more) == RemoveWatches(old(kernel), all)
          {
            assert (ds[j..] + more)[0] == ds[j] && (ds[j..] + more)[1..] == ds[j + 1..] + more;
            RemoveWatch(ds[j]);
          }
          assert ds[|ds|..] + more == more;
        } else {
          assert [] + DescendantsOf(ws[i + 1..], descendants) == DescendantsOf(ws[i + 1..], descendants);
        }
      }
    }

    // ----- monitoring -----

    method AddDescendant(startPointWd: int, addWd: int, adir: Adir)
      modifies this`descendants
      ensures View() == WatchTable.AddDescendant(old(View()), startPointWd, addWd, adir)
    {
      if startPointWd !in watches { return; }
      var found := GetAppropriateAutoscan(startPointWd, adir);
      if found.None? { return; }
      var id := found.value.id;
      if id !in descendants { descendants := descendants[id := []]; }
      descendants := descendants[id := descendants[id] + [addWd]];
    }

    /** The mutual recursion with monitorNonexisting and recheckNonexistingMonitor ends because the
        second call is always for a directory that exists. */
    method MonitorDirectory(p: Path, adir: Adir, norm: Path, startPoint: bool, missing: Option<PathArray>)
      returns (wd: int)
      requires Valid()
      modifies this
      ensures Valid() && View() == WatchTable.MonitorDirectory(old(View()), p, adir, norm, startPoint, missing)
      ensures wd >= 0 <==> p in old(kernel).dirs
      ensures wd >= 0 ==> wd >= 1
      decreases if p in kernel.dirs then 0 else 3
    {
      MonitorDirectoryInv(View(), p, adir, norm, startPoint, missing);
      wd := AddWatch(p);
      if wd < 0 {
        assert kernel == old(kernel);
        if startPoint && adir.persistent {
          MonitorNonexisting(p, adir, norm);
        }
      } else {
        var had := wd in watches;
        var parentWd := INOTIFY_UNKNOWN_PARENT_WD;
        ghost var watched := View();
        if startPoint {
          parentWd := WatchPathForMoves(p, wd);
        }
        assert (View(), parentWd) == WatchAbove(watched, p, wd, startPoint);
        InstallWatch(p, adir, norm, startPoint, missing, had, wd, parentWd);
      }
    }

    /** The second half of monitorDirectory. */
    method InstallWatch(p: Path, adir: Adir, norm: Path, startPoint: bool, missing: Option<PathArray>,
                        had: bool, wd: int, parentWd: int)
      requires had ==> wd in watches
      modifies this
      ensures View() == Install(old(View()), p, adir, norm, startPoint, missing, had, wd, parentWd)
    {
      ghost var e := EntryFor(watches, had, p, wd, parentWd);
      var alreadyWatching := false;
      if !had {
        watches := watches[wd := Wd(p, parentWd, [])];
      } else {
        if parentWd >= 0 && watches[wd].parentWd < 0 {
          watches := watches[wd := watches[wd].(parentWd := parentWd)];
        }
        if missing.None? {
          var found := GetAppropriateAutoscan(wd, adir);
          alreadyWatching := found.Some?;
        }
      }
      assert watches == old(watches)[wd := e];
      if !alreadyWatching {
        var w := AutoscanWatch(nextId, startPoint, adir, norm, missing);
        nextId := nextId + 1;
        watches := watches[wd := AppendWatch(watches[wd], w)];
        assert watches == old(watches)[wd := AppendWatch(e, w)];
        if !startPoint {
          var (k, startPointWd) := kernel.AddWatch(norm);
          kernel := k;
          AddDescendant(startPointWd, wd, adir);
        }
      }
    }

    method MonitorNonexisting(p: Path, adir: Adir, norm: Path)
      requires Valid()
      modifies this
      ensures Valid() && View() == WatchTable.MonitorNonexisting(old(View()), p, adir, norm)
      decreases 2
    {
      var arr := PathArray(nextId, p);
      nextId := nextId + 1;
      ghost var goal := WatchTable.MonitorNonexisting(old(View()), p, adir, norm);
      assert goal == WatchTable.RecheckNonexistingMonitor(View(), -1, arr, adir, norm);
      RecheckNonexistingMonitor(-1, arr, adir, norm);
      assert View() == goal;
    }

    method RecheckNonexistingMonitor(curWd: int, arr: PathArray, adir: Adir, norm: Path)
      requires Valid() && (curWd != -1 ==> curWd in watches)
      modifies this
      ensures Valid() && View() == WatchTable.RecheckNonexistingMonitor(old(View()), curWd, arr, adir, norm)
      decreases 1
    {
      RecheckNonexistingMonitorInv(View(), curWd, arr, adir, norm);
      ghost var n := Deepest(kernel.dirs, arr.comps);
      var first := true;
      var i := |arr.comps|;
      while i >= 0
        invariant -1 <= i <= |arr.comps| && n <= i
        invariant View() == old(View())
        invariant first <==> i == |arr.comps|
      {
        var path := arr.comps[..i];
        if path in kernel.dirs {
          assert i == n;
          if curWd != -1 {
            RemoveNonexistingMonitor(curWd, arr.id);
          }
          if first {
            var _ := MonitorDirectory(path, adir, norm, true, None);
          } else {
            var _ := MonitorDirectory(path, adir, norm, false, Some(arr));
          }
          return;
        }
        if first { first := false; }
        i := i - 1;
      }
    }

    method RemoveNonexistingMonitor(wd: int, arrayId: nat)
      requires Valid() && wd in watches
      modifies this`kernel, this`watches
      ensures Valid() && View() == WatchTable.RemoveNonexistingMonitor(old(View()), wd, arrayId)
    {
      var ws := watches[wd].watches;
      for i := 0 to |ws|
        invariant View() == old(View())
        invariant forall j :: 0 <= j < i ==> !Matches(MissingWith(arrayId), ws[j])
      {
        if ws[i].AutoscanWatch? && ws[i].nonexisting.Some? && ws[i].nonexisting.value.id == arrayId {
          assert Matches(MissingWith(arrayId), ws[i]);
          Drop(wd, i);
          return;
        }
      }
    }

    method RecheckNonexistingMonitors(wd: int)
      requires Valid() && wd in watches
      modifies this
      ensures Valid() && View() == WatchTable.RecheckNonexistingMonitors(old(View()), wd)
    {
      ghost var n := |watches[wd].watches|;
      var i := 0;
      while i < |watches[wd].watches|
        invariant Valid() && wd in watches && |watches[wd].watches| <= n
        invariant RecheckFrom(View(), wd, i, n) == RecheckFrom(old(View()), wd, 0, n)
        decreases n - i
      {
        RecheckNeverGrows(View(), wd, i);
        var w := watches[wd].watches[i];
        if w.AutoscanWatch? && w.nonexisting.Some? {
          RecheckNonexistingMonitor(wd, w.nonexisting.value, w.adir, w.normPath);
        }
        i := i + 1;
      }
    }

    /** The loop over a list that its body may extend; `steps` is the number of iterations. */
    method CheckMoveWatches(wd: int) returns (ghost steps: nat)
      requires Valid() && Plain(watches) && wd in watches
      modifies this
      ensures Valid() && View() == CheckMoves(old(View()), wd, steps)
      ensures wd in watches && |watches[wd].watches| <= steps
    {
      var i := 0;
      while i < |watches[wd].watches|
        invariant Valid() && Plain(watches) && wd in watches
        invariant View() == CheckMoves(old(View()), wd, i)
        decreases if i < |watches[wd].watches| then Weight(View(), wd) - i else 0
      {
        hide CheckMoveAt, Weight;
        ghost var before := View();
        WeightCovers(before, wd);
        CheckMoveAtPlain(before, wd, i);
        CheckMove(wd, i);
        CheckMoveWeight(before, wd, i, View());
        i := i + 1;
      }
      steps := i;
    }

    method CheckMove(wd: int, i: nat)
      requires Valid() && wd in watches && i < |watches[wd].watches|
      modifies this
      ensures Valid() && View() == CheckMoveAt(old(View()), wd, i)
    {
      var w := watches[wd].watches[i];
      if w.MoveWatch? {
        Drop(wd, i);
        GiveUp(w.removeWd);
      }
    }

    method GiveUp(removeWd: int)
      requires Valid()
      modifies this
      ensures Valid() && View() == GiveUpMoved(old(View()), removeWd)
    {
      if removeWd in watches {
        RecheckNonexistingMonitors(removeWd);
        RemoveWatch(removeWd);
        var found := GetStartPoint(removeWd);
        if found.Some? && found.value.adir.persistent {
          MonitorNonexisting(watches[removeWd].path, found.value.adir, found.value.normPath);
        }
      }
    }

    method UnmonitorDirectory(p: Path, adir: Adir)
      requires Valid()
      modifies this`kernel, this`watches
      ensures Valid() && View() == WatchTable.UnmonitorDirectory(old(View()), p, adir)
    {
      var wd := AddWatch(p);
      if wd < 0 || wd !in watches { return; }
      var found := GetAppropriateAutoscan(wd, adir);
      if found.Some? {
        ghost var ws := watches[wd].watches;
        ghost var i := FirstIndex(ws, RegularFor(adir.location));
        assert ws[i] in ws;
        assert forall j :: 0 <= j < |ws| && ws[j] == found.value && found.value !in ws[..j] ==> j == i;
        var _ := RemoveFromWdObj(wd, found.value);
      }
    }

    ghost function Subtree(dirs: map<Path, Ino>, p: Path): set<Path> {
      set q | q in dirs.Keys && p <= q
    }

    lemma SubtreeShrinks(dirs: map<Path, Ino>, p: Path, q: Path)
      requires p < q && p in dirs
      ensures |Subtree(dirs, q)| < |Subtree(dirs, p)|
    {
      var a, b := Subtree(dirs, q), Subtree(dirs, p);
      forall r | r in a ensures r in b {
        assert r[..|q|] == q && q[..|p|] == p;
      }
      assert p in b && p !in a;
      SubsetSmaller(a, b);
    }

    lemma SubsetSmaller(a: set<Path>, b: set<Path>)
      requires a < b
      ensures |a| < |b|
    {
      var rest := b - a;
      assert b == a + rest && rest != {};
    }

    /** monitorUnmonitorRecursive, monitoring: the traversal visits exactly the tree below p, in some order. */
    method MonitorRecursive(p: Path, adir: Adir, norm: Path, startPoint: bool) returns (ghost below: seq<Path>)
      requires Valid()
      modifies this
      ensures Valid() && View() == WatchTable.MonitorRecursive(old(View()), p, adir, norm, startPoint, below)
      ensures Listing(kernel.dirs, p, below)
      decreases |Subtree(kernel.dirs, p)|
    {
      below := [];
      ghost var s0 := WatchTable.MonitorDirectory(View(), p, adir, norm, startPoint, None);
      var wd := MonitorDirectory(p, adir, norm, startPoint, None);
      if wd <= 0 {
        NothingBelow(kernel, p);
        return;
      }
      ghost var children := Children(kernel.dirs, p);
      var todo := Children(kernel.dirs, p);
      while todo != {}
        invariant Valid() && kernel.dirs == old(kernel.dirs) && todo <= children
        invariant View() == MonitorEach(s0, below, adir, norm)
        invariant Visited(kernel.dirs, children - todo, below)
        decreases todo
      {
        var q :| q in todo;
        OneLess(children, todo, q);
        SubtreeShrinks(kernel.dirs, p, q);
        ghost var before := View();
        ghost var more := MonitorRecursive(q, adir, norm, false);
        MonitorStep(s0, below, q, more, adir, norm, before);
        ghost var done := children - todo;
        VisitedMore(kernel.dirs, done, below, q, more);
        below := below + ([q] + more);
        todo := todo - {q};
      }
      assert children - {} == children;
      TraversalLists(kernel, p, below);
      hide MonitorEach;
    }

    method UnmonitorRecursive(p: Path, adir: Adir) returns (ghost below: seq<Path>)
      requires Valid()
      modifies this`kernel, this`watches
      ensures Valid() && View() == WatchTable.UnmonitorRecursive(old(View()), p, adir, below)
      ensures Listing(kernel.dirs, p, below)
      decreases |Subtree(kernel.dirs, p)|
    {
      below := [];
      ghost var s0 := WatchTable.UnmonitorDirectory(View(), p, adir);
      UnmonitorDirectory(p, adir);
      if p !in kernel.dirs {
        NothingBelow(kernel, p);
        return;
      }
      ghost var children := Children(kernel.dirs, p);
      var todo := Children(kernel.dirs, p);
      while todo != {}
        invariant Valid() && kernel.dirs == old(kernel.dirs) && todo <= children
        invariant View() == UnmonitorEach(s0, below, adir)
        invariant Visited(kernel.dirs, children - todo, below)
        decreases todo
      {
        var q :| q in todo;
        OneLess(children, todo, q);
        SubtreeShrinks(kernel.dirs, p, q);
        ghost var before := View();
        ghost var more := UnmonitorRecursive(q, adir);
        UnmonitorStep(s0, below, q, more, adir, before);
        ghost var done := children - todo;
        VisitedMore(kernel.dirs, done, below, q, more);
        below := below + ([q] + more);
        todo := todo - {q};
      }
      assert children - {} == children;
      TraversalLists(kernel, p, below);
    }

    // ----- the event loop -----

    /** A directory taken from the monitor queue. */
    method TakeMonitorRequest(adir: Adir)
      requires Valid() && Plain(watches)
      modifies this
      ensures Valid() && Plain(watches) && Step(old(View()), View())
      ensures Takes(old(View()), View(), Request(adir))
    {
      ghost var below: seq<Path> := [];
      if adir.recursive {
        below := MonitorRecursive(adir.location, adir, adir.location, true);
      } else {
        var _ := MonitorDirectory(adir.location, adir, adir.location, true, None);
      }
      assert TreeOf(old(View()), adir, below) && View() == MonitorRequest(old(View()), adir, below);
      StepPlain(old(View()), View());
    }

    /** A directory taken from the unmonitor queue. */
    method TakeUnmonitorRequest(adir: Adir)
      requires Valid() && Plain(watches)
      modifies this
      ensures Valid() && Plain(watches) && Step(old(View()), View()) && Takes(old(View()), View(), Release(adir))
    {
      ghost var below: seq<Path> := [];
      if adir.recursive {
        below := UnmonitorRecursive(adir.location, adir);
      } else {
        UnmonitorDirectory(adir.location, adir);
      }
      assert TreeOf(old(View()), adir, below) && View() == UnmonitorRequest(old(View()), adir, below);
      StepPlain(old(View()), View());
    }

    /** The event at the head of the queue is a step of the protocol. */
    method TakeEvent()
      requires Valid() && Plain(watches) && kernel.queue != []
      modifies this
      ensures Valid() && Plain(watches) && Step(old(View()), View()) && Takes(old(View()), View(), Handling)
    {
      ghost var below, steps := HandleEvent();
      assert View() == WatchTable.HandleEvent(old(View()), below, steps);
      StepPlain(old(View()), View());
    }

    /** One event, as threadProc handles it. */
    method HandleEvent() returns (ghost below: seq<Path>, ghost steps: nat)
      requires Valid() && Plain(watches) && kernel.queue != []
      modifies this
      ensures Valid() && View() == WatchTable.HandleEvent(old(View()), below, steps) && BelowEvent(old(View()), below)
    {
      below, steps := [], 0;
      HandleEventKeeps(View());
      var event := kernel.queue[0];
      var wd := event.wd;
      kernel := kernel.(queue := kernel.queue[1..]);
      ghost var s := View();
      assert s == Dequeued(old(View()));
      if wd !in watches {
        RemoveWatch(wd);
        return;
      }
      if event.kind.Ignored? {
        IgnoredDispatch(s, event, below, steps);
        RemoveWatchMoves(wd);
        RemoveDescendants(wd);
        watches := watches - {wd};
        assert View() == WatchTable.HandleEvent(old(View()), below, steps);
        return;
      }
      below, steps := Handle(event);
    }

    method Handle(event: Event) returns (ghost below: seq<Path>, ghost steps: nat)
      requires Valid() && Plain(watches) && event.wd in watches && !event.kind.Ignored?
      modifies this
      ensures Valid() && View() == Dispatch(old(View()), event, below, steps) && kernel.dirs == old(kernel.dirs)
      ensures PicksUp(event) ==> Listing(kernel.dirs, EventPath(old(watches)[event.wd], event), below)
    {
      var path := EventPath(watches[event.wd], event);
      var found := GetAppropriateAutoscanForPath(event.wd, path);
      below, steps := HandleDirs(event, found, path);
      if found.Some? {
        ghost var s := View();
        ghost var more := HandleContents(event, found.value, path);
        if !event.kind.Create? {
          assert s == HandleDirectories(old(View()), event, found, path, more, steps);
          below := more;
        }
        assert View() == HandleContent(s, event, found.value, path, below);
      }
    }

    method HandleDirs(event: Event, found: Option<Watch>, path: Path) returns (ghost below: seq<Path>, ghost steps: nat)
      requires Valid() && Plain(watches) && event.wd in watches && (found.Some? ==> found.value.Regular())
      modifies this
      ensures Valid() && event.wd in watches
      ensures View() == HandleDirectories(old(View()), event, found, path, below, steps)
      ensures kernel.dirs == old(kernel.dirs) && (PicksUp(event) ==> Listing(kernel.dirs, path, below))
    {
      below, steps := [], 0;
      var wd := event.wd;
      if event.kind.MoveSelf? {
        steps := CheckMoveWatches(wd);
      }
      if SelfKind(event.kind) {
        RecheckNonexistingMonitors(wd);
      }
      if event.isDir {
        if event.kind.Create? || event.kind.MovedTo? {
          RecheckNonexistingMonitors(wd);
        }
        if found.Some? && found.value.adir.recursive && event.kind.Create? {
          if found.value.adir.hidden || !("." <= event.name) {
            below := MonitorRecursive(path, found.value.adir, found.value.normPath, false);
            return;
          }
        }
        below := SomeListing(kernel.dirs, path);
        assert View() == HandleDirectories(old(View()), event, found, path, below, steps);
      }
    }

    method HandleContents(event: Event, found: Watch, path: Path) returns (ghost below: seq<Path>)
      requires Valid() && event.wd in watches && found.Regular()
      modifies this
      ensures Valid()
      ensures event.kind.Create? ==> View() == old(View())
      ensures View() == HandleContent(old(View()), event, found, path, below) && kernel.dirs == old(kernel.dirs)
      ensures PicksUp(event) && !event.kind.Create? ==> Listing(kernel.dirs, path, below)
    {
      below := [];
      if SelfKind(event.kind) {
        RemoveWatch(event.wd);
        var start := GetStartPoint(event.wd);
        if start.Some? && found.adir.persistent {
          MonitorNonexisting(path, start.value.adir, start.value.normPath);
        }
      } else if (event.kind.CloseWrite? || event.kind.MovedTo?) && event.isDir {
        below := MonitorRecursive(path, found.adir, found.normPath, false);
      }
    }
  }

  lemma BestOfOneMore(ws: seq<Watch>, i: nat, path: Path)
    requires i < |ws|
    ensures var best := BestMatch(ws[..i], path);
            BestMatch(ws[..i + 1], path) ==
            if ws[i].Regular() && ws[i].normPath <= path
               && (best.None? || |best.value.normPath| < |ws[i].normPath|) then Some(ws[i])
            else best
  {
    assert ws[..i + 1][..i] == ws[..i];
  }

  // ----- facts about traversals -----

  function Children(dirs: map<Path, Ino>, p: Path): set<Path> {
    set q | q in dirs.Keys && |q| == |p| + 1 && p < q
  }

  lemma OneLess(all: set<Path>, todo: set<Path>, q: Path)
    requires q in todo && todo <= all
    ensures all - (todo - {q}) == (all - todo) + {q}
  {
  }

  /** below lists the trees rooted in `roots`. */
  ghost predicate Visited(dirs: map<Path, Ino>, roots: set<Path>, below: seq<Path>) {
    forall q :: q in below <==> q in dirs && exists c :: c in roots && c <= q
  }

  lemma VisitedMore(dirs: map<Path, Ino>, roots: set<Path>, below: seq<Path>, q: Path, more: seq<Path>)
    requires Visited(dirs, roots, below) && q in dirs && Listing(dirs, q, more)
    ensures Visited(dirs, roots + {q}, below + ([q] + more))
  {
    forall r ensures r in below + ([q] + more) <==> r in dirs && exists c :: c in roots + {q} && c <= r {
      if r in dirs && exists c :: c in roots && c <= r {
        var c :| c in roots && c <= r;
        assert c in roots + {q} && c <= r;
      }
      assert q <= r <==> q == r || q < r;
      if q <= r { assert q in roots + {q} && q <= r; }
    }
  }

  /** Every directory strictly below p lies in the tree of one child of p. */
  lemma ChildAbove(k: Kernel, p: Path, q: Path)
    requires k.WellFormed() && q in k.dirs && p < q
    ensures exists c :: c in Children(k.dirs, p) && c <= q
  {
    var c := q[..|p| + 1];
    PrefixesExist(k, q, |p| + 1);
    assert c[..|p|] == q[..|p|] == p;
    assert c in Children(k.dirs, p) && c <= q;
  }

  /** A directory that does not exist has none below it. */
  lemma NothingBelow(k: Kernel, p: Path)
    requires k.WellFormed() && p !in k.dirs
    ensures Listing(k.dirs, p, [])
  {
    forall q | q in k.dirs ensures !(p < q) {
      if p < q { AboveExists(k, p, q); }
    }
  }

  lemma AboveExists(k: Kernel, p: Path, q: Path)
    requires k.WellFormed() && q in k.dirs && p < q
    ensures p in k.dirs
  {
    PrefixesExist(k, q, |p|);
    assert q[..|p|] == p;
  }

  /** The directories below a path can be listed. */
  lemma SomeListing(dirs: map<Path, Ino>, p: Path) returns (below: seq<Path>)
    ensures Listing(dirs, p, below)
  {
    var todo := set q | q in dirs.Keys && p < q;
    below := [];
    while todo != {}
      invariant forall q :: q in below || q in todo <==> q in dirs && p < q
    {
      var q :| q in todo;
      below, todo := below + [q], todo - {q};
    }
  }

  lemma TraversalLists(k: Kernel, p: Path, below: seq<Path>)
    requires k.WellFormed() && Visited(k.dirs, Children(k.dirs, p), below)
    ensures Listing(k.dirs, p, below)
  {
    forall q | q in below ensures q in k.dirs && p < q {
      var c :| c in Children(k.dirs, p) && c <= q;
    }
    forall q | q in k.dirs && p < q ensures q in below {
      ChildAbove(k, p, q);
    }
  }

  lemma MonitorStep(s0: State, below: seq<Path>, q: Path, more: seq<Path>, adir: Adir, norm: Path, before: State)
    requires [] in s0.kernel.dirs && q in s0.kernel.dirs && before == MonitorEach(s0, below, adir, norm)
    ensures MonitorRecursive(before, q, adir, norm, false, more) == MonitorEach(s0, below + ([q] + more), adir, norm)
  {
    MonitorEachJoin(s0, below, [q] + more, adir, norm);
    assert ([q] + more)[1..] == more;
  }

  lemma UnmonitorStep(s0: State, below: seq<Path>, q: Path, more: seq<Path>, adir: Adir, before: State)
    requires before == UnmonitorEach(s0, below, adir)
    ensures UnmonitorRecursive(before, q, adir, more) == UnmonitorEach(s0, below + ([q] + more), adir)
  {
    UnmonitorEachJoin(s0, below, [q] + more, adir);
    assert ([q] + more)[1..] == more;
  }

  ghost predicate SameShape(t: Table, t': Table) {
    t'.Keys == t.Keys && forall y :: y in t ==> t'[y].parentWd == t[y].parentWd
  }

  /** What is left of removeWatchMoves after n ancestors. */
  function Remaining(st: State, up: seq<int>, n: nat, wd: int): State
    requires n <= |up| && forall i :: 0 <= i < |up| ==> up[i] in st.table
  {
    SweepAll(st, up[n..], wd)
  }

  lemma SweepStep(st: State, up: seq<int>, n: nat, wd: int, t0: Table)
    requires n < |up| && (forall i :: 0 <= i < |up| ==> up[i] in st.table) && SameShape(t0, st.table)
    ensures var s := SweepEntry(st, up[n], wd);
            SameShape(t0, s.table) && Remaining(st, up, n, wd) == Remaining(s, up, n + 1, wd)
  {
    assert up[n..][0] == up[n] && up[n..][1..] == up[n + 1..];
  }

  /** Where the upward walk from wd stands after n ancestors. */
  function NextUp(t: Table, wd: int, up: seq<int>, n: nat): int
    requires wd in t && n <= |up| && forall i :: 0 <= i < |up| ==> up[i] in t
  {
    if n == 0 then t[wd].parentWd else t[up[n - 1]].parentWd
  }

  lemma {:induction false} ChainWalk(t: Table, x: int, avail: set<int>, rank: int -> nat)
    requires Ranked(t, rank)
    requires 0 <= x && x in t ==> forall y :: y in t && rank(y) <= rank(x) ==> y in avail
    ensures var c := Chain(t, x, avail);
            && (c == [] <==> x < 0 || x !in t)
            && (c != [] ==> c[0] == x && (t[c[|c| - 1]].parentWd < 0 || t[c[|c| - 1]].parentWd !in t))
            && (forall n :: 0 <= n < |c| - 1 ==> t[c[n]].parentWd == c[n + 1])
    decreases |avail|
  {
    if 0 <= x && x in t {
      ChainWalk(t, t[x].parentWd, avail - {x}, rank);
    }
  }

  /** The ancestors, one after the other, until no entry is left. */
  lemma AncestorsWalk(t: Table, wd: int, n: nat)
    requires Acyclic(t) && wd in t && n <= |Ancestors(t, wd)|
    ensures var up := Ancestors(t, wd);
            var y := NextUp(t, wd, up, n);
            if n < |up| then y == up[n] else y < 0 || y !in t
  {
    var rank: int -> nat :| Ranked(t, rank);
    ChainWalk(t, t[wd].parentWd, t.Keys - {wd}, rank);
  }

  lemma {:induction false} MonitorEachJoin(st: State, a: seq<Path>, b: seq<Path>, adir: Adir, norm: Path)
    requires [] in st.kernel.dirs
    ensures MonitorEach(st, a + b, adir, norm) == MonitorEach(MonitorEach(st, a, adir, norm), b, adir, norm)
    decreases |a|
  {
    if a == [] {
      assert a + b == b;
    } else {
      assert (a + b)[1..] == a[1..] + b;
      MonitorEachJoin(MonitorDirectory(st, a[0], adir, norm, false, None), a[1..], b, adir, norm);
    }
  }

  lemma {:induction false} UnmonitorEachJoin(st: State, a: seq<Path>, b: seq<Path>, adir: Adir)
    ensures UnmonitorEach(st, a + b, adir) == UnmonitorEach(UnmonitorEach(st, a, adir), b, adir)
    decreases |a|
  {
    if a == [] {
      assert a + b == b;
    } else {
      assert (a + b)[1..] == a[1..] + b;
      UnmonitorEachJoin(UnmonitorDirectory(st, a[0], adir), a[1..], b, adir);
    }
  }

  lemma HandleEventKeeps(st: State)
    requires Inv(st) && st.kernel.queue != []
    ensures forall below, steps :: Inv(HandleEvent(st, below, steps))
    ensures var ev := st.kernel.queue[0];
            && (ev.kind.Ignored? ==> InvBut(Dequeued(st), ev.wd))
            && (!ev.kind.Ignored? ==> Inv(Dequeued(st)))
  {
    DequeueInv(st);
    forall below, steps ensures Inv(HandleEvent(st, below, steps)) {
      HandleEventInv(st, below, steps);
    }
  }
}
