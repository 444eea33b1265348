/**
 The removal paths: what handling IN_IGNORED cleans up, and what a recursive
 monitor followed by a recursive unmonitor leaves.
 */
module WatchCleanup {
  import opened Wrappers
  import opened InotifyKernel
  import opened WatchTable
  import opened WatchSweep
  import opened WatchInvariant
  import opened WatchEffects

  ghost predicate Distinct(xs: seq<int>) {
    forall i, j :: 0 <= i < j < |xs| ==> xs[i] != xs[j]
  }

  ghost predicate Swept(st: State, r: State, x: int, wd: int)
    requires x in st.table && x in r.table
  {
    var ws := st.table[x].watches;
    if ws == [MoveWatch(wd)] then r.table[x] == st.table[x] && !r.kernel.Live(x)
    else r.table[x] == st.table[x].(watches := Sweep(ws, MoveWatch(wd), 0))
  }

  lemma {:induction false} SweepAllAt(st: State, xs: seq<int>, wd: int, x: int)
    requires st.kernel.WellFormed() && Distinct(xs) && (forall y :: y in xs ==> y in st.table) && x in st.table
    ensures var r := SweepAll(st, xs, wd);
            && r.kernel.WellFormed() && r.descendants == st.descendants
            && (x in xs ==> Swept(st, r, x, wd))
            && (x !in xs ==> r.table[x] == st.table[x])
    decreases |xs|
  {
    if xs != [] {
      var s := SweepEntry(st, xs[0], wd);
      SweepEntryAt(st, xs[0], wd, x);
      hide SweepEntry, Kernel.WellFormed, Kernel.Live, Sweep;
      SweepAllAt(s, xs[1..], wd, x);
      SweepAllLive(s, xs[1..], wd, x);
      assert x in xs <==> x == xs[0] || x in xs[1..];
    }
  }

  /** What the sweep of entry y does to entry x. */
  lemma SweepEntryAt(st: State, y: int, wd: int, x: int)
    requires st.kernel.WellFormed() && y in st.table
    ensures var r := SweepEntry(st, y, wd);
            && r.kernel.WellFormed() && r.descendants == st.descendants && r.table.Keys == st.table.Keys
            && (x in st.table && x == y ==> Swept(st, r, x, wd))
            && (x in st.table && x != y ==> r.table[x] == st.table[x])
            && (r.kernel.Live(x) <==> st.kernel.Live(x) && !(x == y && st.table[y].watches == [MoveWatch(wd)]))
  {
    RemoveWatchKeeps(st.kernel, y);
  }

  lemma {:induction false} SweepAllLive(st: State, xs: seq<int>, wd: int, x: int)
    requires st.kernel.WellFormed() && Distinct(xs) && (forall y :: y in xs ==> y in st.table)
    ensures var r := SweepAll(st, xs, wd);
            && r.kernel.WellFormed()
            && (r.kernel.Live(x) <==>
                st.kernel.Live(x) && !(x in xs && st.table[x].watches == [MoveWatch(wd)]))
    decreases |xs|
  {
    if xs != [] {
      var s := SweepEntry(st, xs[0], wd);
      SweepEntryAt(st, xs[0], wd, x);
      hide SweepEntry, Kernel.WellFormed, Kernel.Live;
      SweepAllLive(s, xs[1..], wd, x);
      assert x in xs <==> x == xs[0] || x in xs[1..];
    }
  }

  lemma RemoveDescendantsLive(st: State, wd: int, x: int)
    requires st.kernel.WellFormed() && wd in st.table
    ensures RemoveDescendants(st, wd).kernel.Live(x) <==>
            st.kernel.Live(x) && x !in DescendantsOf(st.table[wd].watches, st.descendants)
  {
    RemoveWatchesKeeps(st.kernel, DescendantsOf(st.table[wd].watches, st.descendants));
  }

  /** The registered descendants of an entry are those registered with any of its watches, under the watch's id. */
  lemma {:induction false} DescendantsExactly(ws: seq<Watch>, descendants: map<nat, seq<int>>, x: int)
    ensures x in DescendantsOf(ws, descendants) <==>
            exists w :: w in ws && w.AutoscanWatch? && w.id in descendants && x in descendants[w.id]
  {
    if ws != [] {
      DescendantsExactly(ws[1..], descendants, x);
      assert ws == [ws[0]] + ws[1..];
    }
  }

  /** IN_IGNORED clean-up is complete and precise. The descriptor leaves the table and nothing else
      does. Outside the ancestors every entry is untouched; on an ancestor only move watches for wd
      go, and they all go unless one of the last m - 1 watches is one of the m move watches for wd.
      A sole move watch stays in its entry, whose descriptor is removed instead. Besides those, exactly
      the registered descendants lose their descriptors. */
  lemma IgnoredCleanup(st: State, wd: int, x: int)
    requires InvBut(st, wd) && wd in st.table
    ensures var r := Forget(st, wd);
            var up := Ancestors(st.table, wd);
            var below := DescendantsOf(st.table[wd].watches, st.descendants);
            && r.table.Keys == st.table.Keys - {wd}
            && (r.kernel.Live(x) <==>
                st.kernel.Live(x) && x !in below && !(x in up && st.table[x].watches == [MoveWatch(wd)]))
            && (x in r.table && x !in up ==> r.table[x] == st.table[x])
            && (x in up ==>
                  var ws, ws' := st.table[x].watches, r.table[x].watches;
                  var m := multiset(ws)[MoveWatch(wd)];
                  && (forall v :: v != MoveWatch(wd) ==> multiset(ws')[v] == multiset(ws)[v])
                  && (ws == [MoveWatch(wd)] ==> !r.kernel.Live(x))
                  && m <= |ws|
                  && (ws != [MoveWatch(wd)] ==>
                        (MoveWatch(wd) !in ws' <==> m == 0 || MoveWatch(wd) !in ws[|ws| - m + 1..])))
  {
    var up := Ancestors(st.table, wd);
    AncestorsClose(st.table, wd);
    SweepAllAt(st, up, wd, wd);
    SweepAllLive(st, up, wd, x);
    var s := RemoveWatchMoves(st, wd);
    RemoveDescendantsLive(s, wd, x);
    if x in st.table {
      SweepAllAt(st, up, wd, x);
      if x in up {
        SweptContents(st.table[x].watches, wd);
        assert Swept(st, s, x, wd);
      }
    }
  }

  lemma SweptContents(ws: seq<Watch>, wd: int)
    ensures var w := MoveWatch(wd);
            var ws' := Sweep(ws, w, 0);
            var m := multiset(ws)[w];
            && (forall v :: v != w ==> multiset(ws')[v] == multiset(ws)[v])
            && m <= |ws|
            && (w !in ws' <==> m == 0 || w !in ws[|ws| - m + 1..])
  {
    var w := MoveWatch(wd);
    forall v | v != w ensures multiset(Sweep(ws, w, 0))[v] == multiset(ws)[v] {
      SweepDropsOnlyTarget(ws, w, 0, v);
    }
    assert ws[0..] == ws;
    SweepComplete(ws, w, 0);
  }

  /** An ancestor that held one move watch for wd is rid of it, or was only that and is let go. */
  lemma OneMoveWatchGoes(st: State, wd: int, x: int)
    requires InvBut(st, wd) && wd in st.table && x in Ancestors(st.table, wd)
    requires multiset(st.table[x].watches)[MoveWatch(wd)] == 1
    ensures var r := Forget(st, wd);
            x in r.table
            && (|| MoveWatch(wd) !in r.table[x].watches
                || (st.table[x].watches == [MoveWatch(wd)] && !r.kernel.Live(x)))
  {
    IgnoredCleanup(st, wd, x);
    var ws := st.table[x].watches;
    assert ws[|ws| - 1 + 1..] == [];
  }

  // ----- recursive monitor and unmonitor -----

  /** Every kernel-live entry with a regular watch for the location watches one of ps. */
  ghost predicate Located(st: State, location: Path, ps: seq<Path>) {
    forall x :: x in st.table && st.kernel.Live(x) && HasRegular(st.table[x].watches, location) ==>
                  exists q :: q in ps && q in st.kernel.dirs && WatchOf(st.kernel, q) == x
  }

  lemma MonitorLocated(st: State, p: Path, adir: Adir, norm: Path, startPoint: bool, ps: seq<Path>)
    requires Inv(st) && Located(st, adir.location, ps) && p in ps && p in st.kernel.dirs
    ensures Located(MonitorExisting(st, p, adir, norm, startPoint, None), adir.location, ps)
  {
    hide MonitorExisting;
    var s := MonitorExisting(st, p, adir, norm, startPoint, None);
    MonitorExistingInv(st, p, adir, norm, startPoint, None);
    forall x | x in s.table && s.kernel.Live(x) && HasRegular(s.table[x].watches, adir.location)
      ensures exists q :: q in ps && q in s.kernel.dirs && WatchOf(s.kernel, q) == x
    {
      assert EntryOk(s.kernel, x, s.table[x].watches);
      MonitorExistingAt(st, p, adir, norm, startPoint, None, x);
      if x != WatchOf(s.kernel, p) {
        assert HasRegular(WatchesAt(st, x), adir.location);
        assert EntryOk(st.kernel, x, st.table[x].watches);
        ExtendsLiveBack(st.kernel, s.kernel, x);
        var q :| q in ps && q in st.kernel.dirs && WatchOf(st.kernel, q) == x;
        assert WatchOf(s.kernel, q) == x;
      }
    }
  }

  lemma {:induction false} MonitorEachLocated(st: State, rest: seq<Path>, adir: Adir, norm: Path, ps: seq<Path>)
    requires Inv(st) && Located(st, adir.location, ps)
    requires forall q :: q in rest ==> q in ps && q in st.kernel.dirs
    ensures Located(MonitorEach(st, rest, adir, norm), adir.location, ps)
    decreases |rest|
  {
    if rest != [] {
      MonitorLocated(st, rest[0], adir, norm, false, ps);
      MonitorDirectoryInv(st, rest[0], adir, norm, false, None);
      MonitorEachLocated(MonitorDirectory(st, rest[0], adir, norm, false, None), rest[1..], adir, norm, ps);
    }
  }

  /** Where unmonitorDirectory acts: on the entry of the directory's own descriptor, or nowhere. */
  lemma UnmonitorCases(st: State, p: Path, adir: Adir)
    requires Inv(st)
    ensures var r := UnmonitorDirectory(st, p, adir);
            var (k, wd) := st.kernel.AddWatch(p);
            && k.WellFormed() && (forall x :: x in st.table ==> (k.Live(x) <==> st.kernel.Live(x)))
            && (wd in st.table ==> wd == WatchOf(st.kernel, p) && OneRegular(st.table[wd].watches))
            && (|| (r == st.(kernel := k) && (wd in st.table ==> !HasRegular(st.table[wd].watches, adir.location)))
                || (exists i :: wd in st.table && 0 <= i < |st.table[wd].watches|
                                && Matches(RegularFor(adir.location), st.table[wd].watches[i])
                                && r == DropWatch(st.(kernel := k), wd, i)))
  {
    AddWatchKeeps(st.kernel, p);
    var (k, wd) := st.kernel.AddWatch(p);
    forall x | x in st.table ensures k.Live(x) <==> st.kernel.Live(x) {
      assert EntryOk(st.kernel, x, st.table[x].watches);
    }
    if wd in st.table {
      assert EntryOk(st.kernel, wd, st.table[wd].watches);
      var ws := st.table[wd].watches;
      var i := FirstIndex(ws, RegularFor(adir.location));
      assert i == |ws| ==> !HasRegular(ws, adir.location);
    }
  }

  /** One unmonitor takes the location's regular watch, or the descriptor that had nothing else. */
  lemma UnmonitorAt(st: State, p: Path, adir: Adir, x: int)
    requires Inv(st) && x in st.table
    ensures var r := UnmonitorDirectory(st, p, adir);
            && x in r.table
            && (r.kernel.Live(x) ==> st.kernel.Live(x))
            && (st.kernel.Live(x) && !r.kernel.Live(x) ==>
                  |st.table[x].watches| == 1 && Matches(RegularFor(adir.location), st.table[x].watches[0])
                  && r.table[x] == st.table[x])
            && (r.kernel.Live(x) && WatchOf(st.kernel, p) == x ==> !HasRegular(r.table[x].watches, adir.location))
            && (WatchOf(st.kernel, p) != x ==> r.table[x] == st.table[x] && (st.kernel.Live(x) ==> r.kernel.Live(x)))
  {
    hide Inv;
    UnmonitorCases(st, p, adir);
    var r := UnmonitorDirectory(st, p, adir);
    var (k, wd) := st.kernel.AddWatch(p);
    hide UnmonitorDirectory, Kernel.WellFormed, Kernel.AddWatch;
    if r != st.(kernel := k) {
      var ws := st.table[wd].watches;
      var i :| 0 <= i < |ws| && Matches(RegularFor(adir.location), ws[i]) && r == DropWatch(st.(kernel := k), wd, i);
      RemoveWatchKeeps(k, wd);
      TakesOnlyRegular(ws, i, adir.location);
      hide Kernel.Live, Kernel.RemoveWatch, RemoveUnordered;
    }
  }

  lemma UnmonitorKeepsOthers(st: State, p: Path, adir: Adir, x: int, v: Watch)
    requires Inv(st) && x in st.table && !Matches(RegularFor(adir.location), v)
    ensures var r := UnmonitorDirectory(st, p, adir);
            x in r.table && multiset(r.table[x].watches)[v] == multiset(st.table[x].watches)[v]
  {
    UnmonitorCases(st, p, adir);
    var r := UnmonitorDirectory(st, p, adir);
    var (k, wd) := st.kernel.AddWatch(p);
    if r != st.(kernel := k) {
      var ws := st.table[wd].watches;
      var i :| 0 <= i < |ws| && Matches(RegularFor(adir.location), ws[i]) && r == DropWatch(st.(kernel := k), wd, i);
      RemoveUnorderedContents(ws, i);
      hide UnmonitorDirectory, Inv, RemoveUnordered, Kernel.AddWatch, Kernel.RemoveWatch;
    }
  }

  lemma TakesOnlyRegular(ws: seq<Watch>, i: nat, location: Path)
    requires OneRegular(ws) && i < |ws| && Matches(RegularFor(location), ws[i])
    ensures !HasRegular(RemoveUnordered(ws, i), location)
  {
  }

  lemma UnmonitorKernel(st: State, p: Path, adir: Adir, q: Path)
    requires st.kernel.WellFormed() && q in st.kernel.dirs && WatchOf(st.kernel, q) >= 1
    ensures var r := UnmonitorDirectory(st, p, adir);
            r.kernel.Live(WatchOf(st.kernel, q)) ==> WatchOf(r.kernel, q) == WatchOf(st.kernel, q)
  {
    var (k, wd) := st.kernel.AddWatch(p);
    AddWatchKeeps(st.kernel, p);
    AddWatchOf(st.kernel, p, q);
    RemoveWatchKeeps(k, wd);
    RemoveWatchOf(k, wd, q);
    hide Kernel.AddWatch, Kernel.RemoveWatch, Kernel.Live, Kernel.WellFormed, WatchOf;
  }

  lemma {:induction false} UnmonitorEachLocated(st: State, ps: seq<Path>, adir: Adir)
    requires Inv(st) && Located(st, adir.location, ps)
    ensures Located(UnmonitorEach(st, ps, adir), adir.location, [])
    decreases |ps|
  {
    if ps != [] {
      var r := UnmonitorDirectory(st, ps[0], adir);
      UnmonitorDirectoryInv(st, ps[0], adir);
      assert st.table.Keys == r.table.Keys;
      forall x | x in r.table && r.kernel.Live(x) && HasRegular(r.table[x].watches, adir.location)
        ensures exists q :: q in ps[1..] && q in r.kernel.dirs && WatchOf(r.kernel, q) == x
      {
        UnmonitorAt(st, ps[0], adir, x);
        assert EntryOk(st.kernel, x, st.table[x].watches);
        assert r.table[x] == st.table[x];
        var q :| q in ps && q in st.kernel.dirs && WatchOf(st.kernel, q) == x;
        assert q != ps[0];
        UnmonitorKernel(st, ps[0], adir, q);
      }
      UnmonitorEachLocated(r, ps[1..], adir);
    } else {
      assert ps == [];
    }
  }

  /** For any finite tree: a recursive monitor followed by a recursive unmonitor leaves no kernel-live entry
      with a regular watch for the location, exactly when no live entry outside the tree held one before. */
  lemma MonitorThenUnmonitor(st: State, adir: Adir, below: seq<Path>, below': seq<Path>)
    requires Inv(st)
    requires Listing(st.kernel.dirs, adir.location, below) && Listing(st.kernel.dirs, adir.location, below')
    ensures var loc := adir.location;
            var r := UnmonitorRecursive(MonitorRecursive(st, loc, adir, loc, true, below), loc, adir, below');
            (forall x :: x in r.table && r.kernel.Live(x) ==> !HasRegular(r.table[x].watches, loc))
            <==> Located(st, loc, [loc] + below')
  {
    var loc := adir.location;
    var ps := [loc] + below';
    assert forall q :: q in below ==> q in ps && q in st.kernel.dirs;
    MonitorRecursiveInv(st, loc, adir, loc, true, below);
    var s := MonitorRecursive(st, loc, adir, loc, true, below);
    assert ps[1..] == below';
    var r := UnmonitorEach(s, ps, adir);
    assert r == UnmonitorRecursive(s, loc, adir, below');
    if Located(st, loc, ps) {
      MonitorAllLocated(st, adir, below, ps);
      UnmonitorEachLocated(s, ps, adir);
    } else {
      var x :| x in st.table && st.kernel.Live(x) && HasRegular(st.table[x].watches, loc)
               && !exists q :: q in ps && q in st.kernel.dirs && WatchOf(st.kernel, q) == x;
      assert EntryOk(st.kernel, x, st.table[x].watches);
      assert Stray(st, loc, ps, x);
      MonitorAllStray(st, adir, below, ps, x);
      UnmonitorEachStray(s, ps, adir, ps, x);
      assert Stray(r, loc, ps, x);
    }
  }

  lemma MonitorAllLocated(st: State, adir: Adir, below: seq<Path>, ps: seq<Path>)
    requires Inv(st) && Located(st, adir.location, ps) && adir.location in ps
    requires forall q :: q in below ==> q in ps && q in st.kernel.dirs
    ensures Located(MonitorRecursive(st, adir.location, adir, adir.location, true, below), adir.location, ps)
  {
    var loc := adir.location;
    if loc in st.kernel.dirs {
      MonitorLocated(st, loc, adir, loc, true, ps);
      MonitorDirectoryInv(st, loc, adir, loc, true, None);
      MonitorEachLocated(MonitorDirectory(st, loc, adir, loc, true, None), below, adir, loc, ps);
    } else {
      MissingLocated(st, adir, ps);
    }
  }

  /** Monitoring a path that does not exist installs no regular watch. */
  lemma MissingLocated(st: State, adir: Adir, ps: seq<Path>)
    requires Inv(st) && Located(st, adir.location, ps) && adir.location !in st.kernel.dirs
    ensures Located(MonitorDirectory(st, adir.location, adir, adir.location, true, None), adir.location, ps)
  {
    hide MonitorExisting, Located;
    var loc := adir.location;
    if adir.persistent {
      var n := Deepest(st.kernel.dirs, loc);
      assert loc[..|loc|] == loc;
      LocatedAnyId(st, loc, ps);
      GuardLocated(st.(nextId := st.nextId + 1), loc[..n], adir, PathArray(st.nextId, loc), ps);
    }
  }

  lemma LocatedAnyId(st: State, location: Path, ps: seq<Path>)
    requires Inv(st) && Located(st, location, ps)
    ensures var s := st.(nextId := st.nextId + 1); Inv(s) && Located(s, location, ps)
  {
  }

  lemma GuardLocated(st: State, p: Path, adir: Adir, arr: PathArray, ps: seq<Path>)
    requires Inv(st) && Located(st, adir.location, ps) && p in st.kernel.dirs
    ensures Located(MonitorExisting(st, p, adir, adir.location, false, Some(arr)), adir.location, ps)
  {
    var loc := adir.location;
    var s := MonitorExisting(st, p, adir, loc, false, Some(arr));
    MonitorExistingInv(st, p, adir, loc, false, Some(arr));
    forall x | x in s.table && s.kernel.Live(x) && HasRegular(s.table[x].watches, loc)
      ensures exists q :: q in ps && q in s.kernel.dirs && WatchOf(s.kernel, q) == x
    {
      assert EntryOk(s.kernel, x, s.table[x].watches);
      GuardAddsNoRegular(st, p, adir, arr, s, x);
      hide MonitorExisting;
      var q :| q in ps && q in st.kernel.dirs && WatchOf(st.kernel, q) == x;
      assert WatchOf(s.kernel, q) == x;
    }
  }

  lemma GuardAddsNoRegular(st: State, p: Path, adir: Adir, arr: PathArray, s: State, x: int)
    requires Inv(st) && p in st.kernel.dirs && s == MonitorExisting(st, p, adir, adir.location, false, Some(arr))
    requires x in s.table && s.kernel.Live(x) && 1 <= x && HasRegular(s.table[x].watches, adir.location)
    ensures Extends(st.kernel, s.kernel)
    ensures x in st.table && st.kernel.Live(x) && HasRegular(st.table[x].watches, adir.location)
  {
    var loc := adir.location;
    MonitorExistingAt(st, p, adir, loc, false, Some(arr), x);
    hide MonitorExisting;
    var w :| w in s.table[x].watches && Matches(RegularFor(loc), w);
    assert w in WatchesAt(st, x);
    assert EntryOk(st.kernel, x, st.table[x].watches);
    ExtendsLiveBack(st.kernel, s.kernel, x);
  }

  // ----- entries outside the tree -----

  /** A live entry with a regular watch for the location that watches none of ps. */
  ghost predicate Stray(st: State, location: Path, ps: seq<Path>, x: int) {
    && x in st.table && st.kernel.Live(x) && HasRegular(st.table[x].watches, location)
    && forall q :: q in ps ==> WatchOf(st.kernel, q) != x
  }

  lemma ExtendsWatchBack(k: Kernel, k': Kernel, q: Path, x: int)
    requires Extends(k, k') && WatchOf(k', q) == x && 1 <= x < k.nextWd
    ensures WatchOf(k, q) == x
  {
  }

  lemma MonitorStray(st: State, p: Path, adir: Adir, norm: Path, startPoint: bool, missing: Option<PathArray>,
                     location: Path, ps: seq<Path>, x: int)
    requires Inv(st) && p in st.kernel.dirs && Stray(st, location, ps, x)
    ensures Stray(MonitorExisting(st, p, adir, norm, startPoint, missing), location, ps, x)
  {
    var s := MonitorExisting(st, p, adir, norm, startPoint, missing);
    assert EntryOk(st.kernel, x, st.table[x].watches);
    MonitorExistingAt(st, p, adir, norm, startPoint, missing, x);
    hide MonitorExisting;
    ExtendsLive(st.kernel, s.kernel, x);
    var w :| w in st.table[x].watches && Matches(RegularFor(location), w);
    assert w in WatchesAt(s, x);
    forall q | q in ps ensures WatchOf(s.kernel, q) != x {
      if WatchOf(s.kernel, q) == x { ExtendsWatchBack(st.kernel, s.kernel, q, x); }
    }
  }

  lemma {:induction false} MonitorEachStray(st: State, rest: seq<Path>, adir: Adir, norm: Path, ps: seq<Path>, x: int)
    requires Inv(st) && Stray(st, adir.location, ps, x)
    requires forall q :: q in rest ==> q in st.kernel.dirs
    ensures Stray(MonitorEach(st, rest, adir, norm), adir.location, ps, x)
    decreases |rest|
  {
    if rest != [] {
      MonitorStray(st, rest[0], adir, norm, false, None, adir.location, ps, x);
      MonitorDirectoryInv(st, rest[0], adir, norm, false, None);
      MonitorEachStray(MonitorDirectory(st, rest[0], adir, norm, false, None), rest[1..], adir, norm, ps, x);
    }
  }

  lemma MonitorAllStray(st: State, adir: Adir, below: seq<Path>, ps: seq<Path>, x: int)
    requires Inv(st) && Stray(st, adir.location, ps, x)
    requires forall q :: q in below ==> q in st.kernel.dirs
    ensures Stray(MonitorRecursive(st, adir.location, adir, adir.location, true, below), adir.location, ps, x)
  {
    var loc := adir.location;
    if loc in st.kernel.dirs {
      MonitorStray(st, loc, adir, loc, true, None, loc, ps, x);
      MonitorDirectoryInv(st, loc, adir, loc, true, None);
      MonitorEachStray(MonitorDirectory(st, loc, adir, loc, true, None), below, adir, loc, ps, x);
    } else if adir.persistent {
      var n := Deepest(st.kernel.dirs, loc);
      assert loc[..|loc|] == loc;
      var s := st.(nextId := st.nextId + 1);
      MonitorStray(s, loc[..n], adir, loc, false, Some(PathArray(st.nextId, loc)), loc, ps, x);
    }
  }

  lemma UnmonitorWatchBack(st: State, p: Path, adir: Adir, q: Path, x: int)
    requires st.kernel.WellFormed() && 1 <= x < st.kernel.nextWd
    ensures WatchOf(UnmonitorDirectory(st, p, adir).kernel, q) == x ==> WatchOf(st.kernel, q) == x
  {
    var (k, wd) := st.kernel.AddWatch(p);
    AddWatchOf(st.kernel, p, q);
    RemoveWatchOf(k, wd, q);
    hide Kernel.AddWatch, Kernel.RemoveWatch, Kernel.WellFormed, WatchOf;
  }

  lemma {:induction false} UnmonitorEachStray(st: State, rest: seq<Path>, adir: Adir, ps: seq<Path>, x: int)
    requires Inv(st) && Stray(st, adir.location, ps, x) && forall q :: q in rest ==> q in ps
    ensures Stray(UnmonitorEach(st, rest, adir), adir.location, ps, x)
    decreases |rest|
  {
    if rest != [] {
      var r := UnmonitorDirectory(st, rest[0], adir);
      UnmonitorDirectoryInv(st, rest[0], adir);
      assert EntryOk(st.kernel, x, st.table[x].watches);
      UnmonitorAt(st, rest[0], adir, x);
      forall q | q in ps ensures WatchOf(r.kernel, q) != x { UnmonitorWatchBack(st, rest[0], adir, q, x); }
      hide UnmonitorDirectory;
      UnmonitorEachStray(r, rest[1..], adir, ps, x);
    }
  }

  /** The unmonitor traversal drops no watch of another location, no nonexisting-path watch and no
      move watch, and takes a descriptor only from an entry that had nothing but the location. */
  lemma {:induction false} UnmonitorDropsOnlyLocation(st: State, ps: seq<Path>, adir: Adir, x: int, v: Watch)
    requires Inv(st) && x in st.table && !Matches(RegularFor(adir.location), v)
    ensures var r := UnmonitorEach(st, ps, adir);
            && x in r.table
            && multiset(r.table[x].watches)[v] == multiset(st.table[x].watches)[v]
            && (v in st.table[x].watches && st.kernel.Live(x) ==> r.kernel.Live(x))
    decreases |ps|
  {
    if ps != [] {
      var s := UnmonitorDirectory(st, ps[0], adir);
      UnmonitorDirectoryInv(st, ps[0], adir);
      UnmonitorAt(st, ps[0], adir, x);
      UnmonitorKeepsOthers(st, ps[0], adir, x, v);
      UnmonitorDropsOnlyLocation(s, ps[1..], adir, x, v);
      assert v in st.table[x].watches ==> v in multiset(s.table[x].watches);
    }
  }

  // ----- nonexisting paths -----

  /** A start-point watch for the location. */
  ghost predicate StartsAt(ws: seq<Watch>, location: Path) {
    exists w :: w in ws && Matches(RegularFor(location), w) && w.startPoint
  }

  /** recheckNonexistingMonitor settles on the longest existing prefix of the path. If that is a part of the
      path only, its entry gains a watch for the path and no start point is new anywhere. If it is the whole
      path, its entry has a regular watch for the location afterwards. That one is a start point exactly when
      the entry had no regular watch for the location, or one that was a start point already. */
  lemma RecheckSelectsDeepest(st: State, curWd: int, arr: PathArray, adir: Adir, norm: Path)
    requires Inv(st) && (curWd != -1 ==> curWd in st.table)
    ensures var r := RecheckNonexistingMonitor(st, curWd, arr, adir, norm);
            var n := Deepest(st.kernel.dirs, arr.comps);
            var x := WatchOf(r.kernel, arr.comps[..n]);
            && x in r.table && r.kernel.Live(x)
            && (n == |arr.comps| ==>
                  && HasRegular(r.table[x].watches, adir.location)
                  && (StartsAt(r.table[x].watches, adir.location) <==>
                      !HasRegular(WatchesAt(st, x), adir.location) || StartsAt(WatchesAt(st, x), adir.location)))
            && (n < |arr.comps| ==> AutoscanWatch(st.nextId, false, adir, norm, Some(arr)) in r.table[x].watches)
            && (n < |arr.comps| ==> forall y :: y in r.table ==> NoNewStartPoint(st, r, y))
  {
    var s := if curWd != -1 then RemoveNonexistingMonitor(st, curWd, arr.id) else st;
    RemoveNonexistingKeeps(st, curWd, arr.id);
    var n := Deepest(st.kernel.dirs, arr.comps);
    var missing := if n == |arr.comps| then None else Some(arr);
    var r := RecheckNonexistingMonitor(st, curWd, arr, adir, norm);
    assert r == MonitorExisting(s, arr.comps[..n], adir, norm, n == |arr.comps|, missing);
    hide MonitorExisting, RecheckNonexistingMonitor, RemoveNonexistingMonitor;
    MonitorInstalls(s, arr.comps[..n], adir, norm, n == |arr.comps|, missing);
    if n < |arr.comps| {
      MonitorMissingNoStart(s, arr.comps[..n], adir, norm, missing);
      forall y | y in r.table ensures NoNewStartPoint(st, r, y) {
        assert NoNewStartPoint(s, r, y);
      }
    } else {
      MonitorStarts(s, arr.comps[..n], adir, norm, r);
    }
  }

  /** A new start point is installed exactly where no regular watch for the location is. */
  lemma MonitorStarts(s: State, p: Path, adir: Adir, norm: Path, r: State)
    requires Inv(s) && p in s.kernel.dirs && r == MonitorExisting(s, p, adir, norm, true, None)
    ensures var x, loc := WatchOf(r.kernel, p), adir.location;
            && x in r.table
            && (WatchesAt(r, x) == if HasRegular(WatchesAt(s, x), loc) then WatchesAt(s, x)
                                   else WatchesAt(s, x) + [AutoscanWatch(s.nextId, true, adir, norm, None)])
            && (StartsAt(r.table[x].watches, loc) <==>
                !HasRegular(WatchesAt(s, x), loc) || StartsAt(WatchesAt(s, x), loc))
  {
    MonitorExistingInv(s, p, adir, norm, true, None);
    MonitorExistingAt(s, p, adir, norm, true, None, 1);
    hide MonitorExisting;
    var x, loc := WatchOf(r.kernel, p), adir.location;
    assert EntryOk(r.kernel, x, r.table[x].watches);
    Appended(WatchesAt(s, x), AutoscanWatch(s.nextId, true, adir, norm, None), loc);
  }

  /** A regular watch is appended to a list with one regular watch per location. */
  lemma Appended(ws: seq<Watch>, w: Watch, location: Path)
    requires Matches(RegularFor(location), w) && w.startPoint
    ensures OneRegular(ws + [w]) ==> !HasRegular(ws, location)
    ensures StartsAt(ws + [w], location)
  {
    assert (ws + [w])[|ws|] == w;
    if v :| v in ws && Matches(RegularFor(location), v) {
      var i :| 0 <= i < |ws| && ws[i] == v;
      assert (ws + [w])[i] == v;
    }
  }

  ghost predicate NoNewStartPoint(st: State, r: State, y: int)
    requires y in r.table
  {
    forall w :: w in r.table[y].watches && Matches(AnyStartPoint, w) ==> y in st.table && w in st.table[y].watches
  }

  lemma MonitorInstalls(s: State, p: Path, adir: Adir, norm: Path, startPoint: bool, missing: Option<PathArray>)
    requires Inv(s) && p in s.kernel.dirs
    ensures var r := MonitorExisting(s, p, adir, norm, startPoint, missing);
            var x := WatchOf(r.kernel, p);
            && x in r.table && r.kernel.Live(x)
            && (missing.Some? ==> AutoscanWatch(s.nextId, startPoint, adir, norm, missing) in r.table[x].watches)
            && (missing.None? ==> HasRegular(r.table[x].watches, adir.location))
  {
    var r := MonitorExisting(s, p, adir, norm, startPoint, missing);
    MonitorExistingAt(s, p, adir, norm, startPoint, missing, 1);
    var x := WatchOf(r.kernel, p);
    var w := AutoscanWatch(s.nextId, startPoint, adir, norm, missing);
    if WatchesAt(r, x) == WatchesAt(s, x) + [w] {
      assert w in r.table[x].watches;
      assert missing.None? ==> Matches(RegularFor(adir.location), w);
    }
  }

  lemma MonitorMissingNoStart(s: State, p: Path, adir: Adir, norm: Path, missing: Option<PathArray>)
    requires Inv(s) && p in s.kernel.dirs
    ensures var r := MonitorExisting(s, p, adir, norm, false, missing);
            forall y :: y in r.table ==> NoNewStartPoint(s, r, y)
  {
    var r := MonitorExisting(s, p, adir, norm, false, missing);
    MonitorExistingInv(s, p, adir, norm, false, missing);
    forall y | y in r.table ensures NoNewStartPoint(s, r, y) {
      assert EntryOk(r.kernel, y, r.table[y].watches);
      MonitorExistingAt(s, p, adir, norm, false, missing, y);
      assert forall w :: w in r.table[y].watches && Matches(AnyStartPoint, w) ==> w in WatchesAt(s, y);
    }
  }

  lemma RemoveNonexistingKeeps(st: State, curWd: int, arrayId: nat)
    requires Inv(st) && (curWd != -1 ==> curWd in st.table)
    ensures var s := if curWd != -1 then RemoveNonexistingMonitor(st, curWd, arrayId) else st;
            && Inv(s) && s.nextId == st.nextId && s.table.Keys == st.table.Keys
            && (forall y, w :: y in s.table && w in s.table[y].watches ==> w in st.table[y].watches)
            && (forall y, w :: y in s.table && w in st.table[y].watches && w.Regular() ==> w in s.table[y].watches)
  {
    if curWd != -1 {
      var ws := st.table[curWd].watches;
      var i := FirstIndex(ws, MissingWith(arrayId));
      if i < |ws| {
        DropWatchInv(st, curWd, i);
        OthersStay(ws, i);
        hide Inv, RemoveUnordered;
      }
    }
  }

  lemma OthersStay(ws: seq<Watch>, i: nat)
    requires i < |ws|
    ensures forall w :: w in ws && w != ws[i] ==> w in RemoveUnordered(ws, i)
    ensures forall w :: w in RemoveUnordered(ws, i) ==> w in ws
  {
    var u := RemoveUnordered(ws, i);
    forall w | w in ws && w != ws[i] ensures w in u {
      var j :| 0 <= j < |ws| && ws[j] == w;
      assert w == if j == |ws| - 1 then u[i] else u[j];
    }
  }

  /** What an iteration of recheckNonexistingMonitors on a missing-path watch comes to: the first watch with
      the same path array is dropped, then the deepest existing directory of its path monitored. */
  lemma RecheckOneIs(st: State, x: int, i: nat, r: State)
    returns (j: nat, s: State, p: Path, missing: Option<PathArray>)
    requires Inv(st) && x in st.table && i < |st.table[x].watches| && st.table[x].watches[i].Missing()
    requires r == RecheckOne(st, x, i)
    ensures j <= i && Matches(MissingWith(st.table[x].watches[i].nonexisting.value.id), st.table[x].watches[j])
    ensures s == DropWatch(st, x, j) && Inv(s)
    ensures p in s.kernel.dirs
    ensures var c := st.table[x].watches[i].nonexisting.value.comps;
            [] in st.kernel.dirs && p == c[..Deepest(st.kernel.dirs, c)] && (missing.None? <==> p == c)
    ensures missing.Some? ==> missing == st.table[x].watches[i].nonexisting
    ensures var w := st.table[x].watches[i]; r == MonitorExisting(s, p, w.adir, w.normPath, missing.None?, missing)
  {
    var ws := st.table[x].watches;
    var arr := ws[i].nonexisting.value;
    j := FirstIndex(ws, MissingWith(arr.id));
    assert Matches(MissingWith(arr.id), ws[i]);
    hide Agree;
    RootExists(st);
    DropWatchInv(st, x, j);
    s := DropWatch(st, x, j);
    assert x != -1 by { assert EntryOk(st.kernel, x, ws); }
    hide Inv;
    assert s == RemoveNonexistingMonitor(st, x, arr.id);
    hide MonitorExisting, RemoveNonexistingMonitor, DropWatch;
    var n := Deepest(st.kernel.dirs, arr.comps);
    p, missing := arr.comps[..n], if n == |arr.comps| then None else Some(arr);
  }

  /** Dropping a watch of entry x, seen at entry y: the list is shorter by one, or the descriptor is dead. */
  lemma DropKeeps(st: State, x: int, i: nat, s: State, y: int)
    requires Inv(st) && x in st.table && i < |st.table[x].watches| && y in st.table && s == DropWatch(st, x, i)
    ensures s.kernel.WellFormed() && y in s.table && 1 <= y < s.kernel.nextWd
    ensures y != x ==> s.table[y] == st.table[y]
    ensures st.kernel.Live(y) || !s.kernel.Live(y)
    ensures if |st.table[x].watches| == 1 then s.table == st.table && !s.kernel.Live(x)
            else |s.table[x].watches| == |st.table[x].watches| - 1
  {
    assert EntryOk(st.kernel, y, st.table[y].watches);
    RemoveWatchKeeps(st.kernel, x);
  }

  /** One iteration of recheckNonexistingMonitors never makes the list it runs over longer, so the
      loop ends within the list's first length. */
  lemma RecheckNeverGrows(st: State, wd: int, i: nat)
    requires Inv(st) && wd in st.table && i < |st.table[wd].watches|
    ensures |RecheckOne(st, wd, i).table[wd].watches| <= |st.table[wd].watches|
  {
    var ws := st.table[wd].watches;
    if ws[i].Missing() {
      var r := RecheckOne(st, wd, i);
      hide Agree;
      var j, s, p, missing := RecheckOneIs(st, wd, i, r);
      DropKeeps(st, wd, j, s, wd);
      hide RecheckOne, MonitorExisting, DropWatch, Kernel.WellFormed, Kernel.Live;
      MonitorLengthens(s, p, ws[i].adir, ws[i].normPath, missing.None?, missing, r, wd);
    }
  }

  /** Monitoring one directory makes a list longer by at most one, and a dead entry's not at all. */
  lemma MonitorLengthens(s: State, p: Path, adir: Adir, norm: Path, startPoint: bool, missing: Option<PathArray>,
                         r: State, x: int)
    requires s.kernel.WellFormed() && p in s.kernel.dirs && x in s.table && 1 <= x < s.kernel.nextWd
    requires r == MonitorExisting(s, p, adir, norm, startPoint, missing)
    ensures x in r.table && |r.table[x].watches| <= |s.table[x].watches| + 1
    ensures !s.kernel.Live(x) ==> r.table[x].watches == s.table[x].watches
  {
    MonitorExistingAt(s, p, adir, norm, startPoint, missing, x);
    hide MonitorExisting, Kernel.WellFormed;
    if !s.kernel.Live(x) { DeadStaysDead(s.kernel, r.kernel, x, p); }
  }

  /** A removed descriptor is not handed out again. */
  lemma DeadStaysDead(k: Kernel, k': Kernel, wd: int, p: Path)
    requires Extends(k, k') && !k.Live(wd) && 1 <= wd < k.nextWd
    ensures !k'.Live(wd) && WatchOf(k', p) != wd && !Between(k', p, 0, wd)
  {
    if k'.Live(wd) { ExtendsLiveBack(k, k', wd); }
    assert forall q :: WatchOf(k', q) == wd ==> k'.Live(wd);
  }
}
