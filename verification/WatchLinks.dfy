/**
 The parent links of a new start point: they lead from its entry through those of all directories above it
 to the root, so that the clean-up that walks them meets every move watch set for it.
 */
module WatchLinks {
  import opened Wrappers
  import opened InotifyKernel
  import opened WatchTable
  import opened WatchInvariant
  import opened WatchEffects

  /** The entry of the directory p[..j] is linked to that of the directory above. */
  ghost predicate LinkedAt(s: State, p: Path, j: nat, first: nat, parentWd: int)
    requires first <= j < |p|
  {
    var x := WatchOf(s.kernel, p[..j]);
    && x >= 1 && x in s.table
    && s.table[x].parentWd == if j == first then parentWd else WatchOf(s.kernel, p[..j - 1])
  }

  /** Setting the move watches from depth i down links each entry to the one before it, and no other entry. */
  lemma {:induction false} WatchPathLinks(st: State, p: Path, wd: int, i: nat, parentWd: int)
    requires st.kernel.WellFormed() && i <= |p| && p in st.kernel.dirs
    ensures var (s, c) := WatchPathForMoves(st, p, wd, i, parentWd);
            && Extends(st.kernel, s.kernel)
            && (forall j :: i <= j < |p| ==> LinkedAt(s, p, j, i, parentWd))
            && c == (if i < |p| then WatchOf(s.kernel, p[..|p| - 1]) else parentWd)
            && (forall x :: x in st.table && !Between(s.kernel, p, i, x) ==>
                  x in s.table && s.table[x].parentWd == st.table[x].parentWd)
    decreases |p| - i
  {
    if i < |p| {
      PrefixesExist(st.kernel, p, i);
      AddMoveWatchAt(st, p[..i], wd, parentWd, 1);
      var (s, c) := AddMoveWatch(st, p[..i], wd, parentWd);
      assert c in s.table && s.table[c].parentWd == parentWd;
      assert forall x :: x in st.table && x != c ==> x in s.table && s.table[x].parentWd == st.table[x].parentWd;
      hide AddMoveWatch;
      WatchPathLinks(s, p, wd, i + 1, c);
      var (r, d) := WatchPathForMoves(st, p, wd, i, parentWd);
      assert (r, d) == WatchPathForMoves(s, p, wd, i + 1, c);
      hide WatchPathForMoves;
      ExtendsTrans(st.kernel, s.kernel, r.kernel);
      LinksJoin(st, s, r, p, i, i + 1, parentWd, c);
    }
  }

  lemma LinksJoin(st: State, s: State, r: State, p: Path, i: nat, next: nat, parentWd: int, c: int)
    requires i < |p| && next == i + 1 && p[..i] in s.kernel.dirs
    requires Extends(s.kernel, r.kernel) && c == WatchOf(s.kernel, p[..i]) >= 1
    requires c in s.table && s.table[c].parentWd == parentWd
    requires forall x :: x in st.table && x != c ==> x in s.table && s.table[x].parentWd == st.table[x].parentWd
    requires forall j :: next <= j < |p| ==> LinkedAt(r, p, j, next, c)
    requires forall x :: x in s.table && !Between(r.kernel, p, next, x) ==>
                           x in r.table && r.table[x].parentWd == s.table[x].parentWd
    ensures forall j :: i <= j < |p| ==> LinkedAt(r, p, j, i, parentWd)
    ensures forall x :: x in st.table && !Between(r.kernel, p, i, x) ==>
                          x in r.table && r.table[x].parentWd == st.table[x].parentWd
  {
    assert WatchOf(r.kernel, p[..i]) == c && r.kernel.WellFormed();
    NextIsOther(r.kernel, p, i);
    forall j | i <= j < |p| ensures LinkedAt(r, p, j, i, parentWd) {
      assert j > i ==> LinkedAt(r, p, j, next, c);
    }
    forall x | x in st.table && !Between(r.kernel, p, i, x)
      ensures x in r.table && r.table[x].parentWd == st.table[x].parentWd
    {
      assert x != c && !Between(r.kernel, p, next, x);
    }
  }

  /** The descriptors of the directories above p[..j + 1], from the deepest one up. */
  function Upwards(k: Kernel, p: Path, j: nat): (r: seq<int>)
    requires j < |p|
    ensures |r| == j + 1 && forall i :: 0 <= i <= j ==> r[i] == WatchOf(k, p[..j - i])
  {
    [WatchOf(k, p[..j])] + if j == 0 then [] else Upwards(k, p, j - 1)
  }

  lemma {:induction false} ChainGoesUp(s: State, p: Path, j: nat, avail: set<int>)
    requires s.kernel.WellFormed() && j < |p| && p in s.kernel.dirs
    requires forall i :: 0 <= i <= j ==> LinkedAt(s, p, i, 0, INOTIFY_ROOT) && WatchOf(s.kernel, p[..i]) in avail
    ensures Chain(s.table, WatchOf(s.kernel, p[..j]), avail) == Upwards(s.kernel, p, j)
  {
    var x := WatchOf(s.kernel, p[..j]);
    assert LinkedAt(s, p, j, 0, INOTIFY_ROOT);
    if j > 0 {
      forall i | 0 <= i <= j - 1
        ensures LinkedAt(s, p, i, 0, INOTIFY_ROOT) && WatchOf(s.kernel, p[..i]) in avail - {x}
      {
        OtherDescriptor(s, p, i, j);
      }
      hide LinkedAt, Kernel.WellFormed;
      ChainGoesUp(s, p, j - 1, avail - {x});
    }
  }

  lemma OtherDescriptor(s: State, p: Path, i: nat, j: nat)
    requires s.kernel.WellFormed() && i < j <= |p| && p in s.kernel.dirs && WatchOf(s.kernel, p[..j]) >= 1
    requires LinkedAt(s, p, i, 0, INOTIFY_ROOT)
    ensures WatchOf(s.kernel, p[..i]) != WatchOf(s.kernel, p[..j])
  {
    assert |p[..i]| != |p[..j]|;
  }

  /** A start point whose entry is new, or had no known parent, has exactly the descriptors of all directories above
      it as its ancestors, from the one right above it to the root. */
  lemma StartPointLinked(st: State, p: Path, adir: Adir, norm: Path)
    requires Inv(st) && p in st.kernel.dirs && p != []
    requires var wd := WatchOf(st.kernel, p); wd in st.table ==> st.table[wd].parentWd < 0
    ensures var r := MonitorExisting(st, p, adir, norm, true, None);
            Ancestors(r.table, WatchOf(r.kernel, p)) == Upwards(r.kernel, p, |p| - 1)
  {
    var wd := MonitorLinks(st, p, adir, norm);
    hide MonitorExisting, Inv, LinkedAt, Ancestors, Kernel.WellFormed;
    LinkedUpwards(MonitorExisting(st, p, adir, norm, true, None), p, wd);
  }

  /** The link of the entry that monitoring leaves for p. A known parent is never replaced, and an unknown one only
      by that of a start point, whose parent is the directory above. */
  function LinkAfter(st: State, r: State, p: Path, startPoint: bool): int {
    var wd := WatchOf(r.kernel, p);
    var above := if !startPoint then INOTIFY_UNKNOWN_PARENT_WD
                 else if p == [] then INOTIFY_ROOT else WatchOf(r.kernel, p[..|p| - 1]);
    if wd in st.table && (above < 0 || st.table[wd].parentWd >= 0) then st.table[wd].parentWd else above
  }

  /** Monitoring a directory sets its own link as LinkAfter says, and otherwise only links of directories above a
      start point. */
  lemma MonitorLinksExactly(st: State, p: Path, adir: Adir, norm: Path, startPoint: bool, missing: Option<PathArray>)
    requires Inv(st) && p in st.kernel.dirs
    ensures var r := MonitorExisting(st, p, adir, norm, startPoint, missing);
            var wd := WatchOf(r.kernel, p);
            && wd in r.table && r.table[wd].parentWd == LinkAfter(st, r, p, startPoint)
            && forall x :: x in st.table && x != wd && !(startPoint && Between(r.kernel, p, 0, x)) ==>
                             x in r.table && r.table[x].parentWd == st.table[x].parentWd
  {
    var (k, wd) := st.kernel.AddWatch(p);
    AddWatchKeeps(st.kernel, p);
    NewHere(st, p, wd);
    var s0 := st.(kernel := k);
    LinksAbove(s0, p, wd, startPoint);
    var (s, c) := WatchAbove(s0, p, wd, startPoint);
    var r := MonitorExisting(st, p, adir, norm, startPoint, missing);
    assert r == Install(s, p, adir, norm, startPoint, missing, wd in st.table, wd, c);
    hide MonitorExisting, WatchAbove, Kernel.AddWatch, Inv, Between;
    SelfIsAbove(s.kernel, p, wd);
    InstallKernel(s, p, adir, norm, startPoint, missing, wd in st.table, wd, c);
    InstallLinks(s, p, adir, norm, startPoint, missing, wd in st.table, wd, c);
  }

  lemma LinksAbove(st: State, p: Path, wd: int, startPoint: bool)
    requires st.kernel.WellFormed() && p in st.kernel.dirs && wd == WatchOf(st.kernel, p) >= 1
    ensures var (s, c) := WatchAbove(st, p, wd, startPoint);
            && s.kernel.WellFormed() && WatchOf(s.kernel, p) == wd && st.table.Keys <= s.table.Keys
            && c == (if !startPoint then INOTIFY_UNKNOWN_PARENT_WD
                     else if p == [] then INOTIFY_ROOT else WatchOf(s.kernel, p[..|p| - 1]))
            && (c < 0 <==> !startPoint || p == [])
            && (wd in s.table <==> wd in st.table)
            && forall x :: x in st.table && !(startPoint && Between(s.kernel, p, 0, x)) ==>
                             s.table[x].parentWd == st.table[x].parentWd
  {
    WatchAboveAt(st, p, wd, startPoint, wd);
    if startPoint {
      WatchPathLinks(st, p, wd, 0, INOTIFY_ROOT);
      var (s, c) := WatchPathForMoves(st, p, wd, 0, INOTIFY_ROOT);
      hide WatchPathForMoves;
      if p != [] { assert LinkedAt(s, p, |p| - 1, 0, INOTIFY_ROOT); }
    }
  }

  lemma LinkedUpwards(r: State, p: Path, wd: int)
    requires r.kernel.WellFormed() && p in r.kernel.dirs && p != [] && wd == WatchOf(r.kernel, p) >= 1
    requires wd in r.table && r.table[wd].parentWd == WatchOf(r.kernel, p[..|p| - 1])
    requires forall i :: 0 <= i < |p| ==> LinkedAt(r, p, i, 0, INOTIFY_ROOT)
    ensures Ancestors(r.table, wd) == Upwards(r.kernel, p, |p| - 1)
  {
    assert p[..|p|] == p;
    forall i | 0 <= i < |p| ensures WatchOf(r.kernel, p[..i]) in r.table.Keys - {wd} {
      assert LinkedAt(r, p, i, 0, INOTIFY_ROOT);
      OtherDescriptor(r, p, i, |p|);
    }
    hide LinkedAt, Kernel.WellFormed;
    ChainGoesUp(r, p, |p| - 1, r.table.Keys - {wd});
  }

  lemma MonitorLinks(st: State, p: Path, adir: Adir, norm: Path) returns (wd: int)
    requires Inv(st) && p in st.kernel.dirs && p != []
    requires var wd := WatchOf(st.kernel, p); wd in st.table ==> st.table[wd].parentWd < 0
    ensures var r := MonitorExisting(st, p, adir, norm, true, None);
            && r.kernel.WellFormed() && p in r.kernel.dirs && wd == WatchOf(r.kernel, p) >= 1 && wd in r.table
            && r.table[wd].parentWd == WatchOf(r.kernel, p[..|p| - 1])
            && forall i :: 0 <= i < |p| ==> LinkedAt(r, p, i, 0, INOTIFY_ROOT)
  {
    var (k, wd0) := st.kernel.AddWatch(p);
    wd := wd0;
    AddWatchKeeps(st.kernel, p);
    NewHere(st, p, wd);
    var s0 := st.(kernel := k);
    WatchPathLinks(s0, p, wd, 0, INOTIFY_ROOT);
    var (s, c) := WatchPathForMoves(s0, p, wd, 0, INOTIFY_ROOT);
    var r := MonitorExisting(st, p, adir, norm, true, None);
    assert r == Install(s, p, adir, norm, true, None, wd in st.table, wd, c);
    hide MonitorExisting, WatchPathForMoves, Install, Kernel.AddWatch, Inv;
    assert WatchOf(s.kernel, p) == wd;
    SelfIsAbove(s.kernel, p, wd);
    assert LinkedAt(s, p, |p| - 1, 0, INOTIFY_ROOT);
    InstallLinks(s, p, adir, norm, true, None, wd in st.table, wd, c);
    LinksStay(s, r, p, wd);
  }

  lemma LinksStay(s: State, r: State, p: Path, wd: int)
    requires r.kernel == s.kernel && s.kernel.WellFormed() && p in s.kernel.dirs && WatchOf(s.kernel, p) == wd >= 1
    requires forall x :: x in s.table && x != wd ==> x in r.table && r.table[x].parentWd == s.table[x].parentWd
    requires forall i :: 0 <= i < |p| ==> LinkedAt(s, p, i, 0, INOTIFY_ROOT)
    ensures forall i :: 0 <= i < |p| ==> LinkedAt(r, p, i, 0, INOTIFY_ROOT)
  {
    forall i | 0 <= i < |p| ensures LinkedAt(r, p, i, 0, INOTIFY_ROOT) {
      assert LinkedAt(s, p, i, 0, INOTIFY_ROOT);
      assert p[..|p|] == p;
      OtherDescriptor(s, p, i, |p|);
    }
  }

  /** A descriptor that has no entry yet is of no directory above. */
  lemma NewHere(st: State, p: Path, wd: int)
    requires Inv(st) && p in st.kernel.dirs && wd == st.kernel.AddWatch(p).1
    ensures wd in st.table <==> WatchOf(st.kernel, p) in st.table
  {
    forall x | x in st.table ensures 1 <= x < st.kernel.nextWd { assert EntryOk(st.kernel, x, st.table[x].watches); }
  }

  lemma SelfIsAbove(k: Kernel, p: Path, wd: int)
    requires k.WellFormed() && p in k.dirs && WatchOf(k, p) == wd >= 1
    ensures !Between(k, p, 0, wd)
  {
    assert forall j :: 0 <= j < |p| ==> |p[..j]| != |p|;
  }

  /** The second half of monitorDirectory sets the link of the directory itself, and no other. */
  lemma InstallLinks(s: State, p: Path, adir: Adir, norm: Path, startPoint: bool, missing: Option<PathArray>,
                     had: bool, wd: int, c: int)
    requires had ==> wd in s.table
    ensures var r := Install(s, p, adir, norm, startPoint, missing, had, wd, c);
            && wd in r.table && (startPoint ==> r.kernel == s.kernel)
            && r.table[wd].parentWd ==
               (if had && (c < 0 || s.table[wd].parentWd >= 0) then s.table[wd].parentWd else c)
            && forall x :: x in s.table && x != wd ==> x in r.table && r.table[x].parentWd == s.table[x].parentWd
  {
  }
}
