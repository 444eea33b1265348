/**
 Two runs with one location inside another, in which the clean-up after the outer one takes a descriptor
 the inner one needs. In the first, /m/p is renamed to /q, /q/x becomes a location of its own, and /m is
 deleted. In the second, a persistent location below /m is waiting for its directory when /m is given up.
 */
module NestedRun {
  import opened Wrappers
  import opened InotifyKernel
  import opened WatchTable
  import opened WatchInvariant
  import opened WatchCleanup
  import opened WatchPersistence
  import opened PersistentRuns
  import opened TreeSteps
  import opened WatchSteps

  const TOP: Path := []
  const M: Path := ["m"]
  const MP: Path := ["m", "p"]
  const MPX: Path := ["m", "p", "x"]
  const Q: Path := ["q"]
  const QX: Path := ["q", "x"]
  const OUTER := Adir(M, true, false, false)
  const INNER := Adir(QX, false, false, false)
  const AT_M := AutoscanWatch(0, true, OUTER, M, None)
  const AT_MP := AutoscanWatch(1, false, OUTER, M, None)
  const AT_MPX := AutoscanWatch(2, false, OUTER, M, None)
  const AT_QX := AutoscanWatch(3, true, INNER, QX, None)
  const TREE: map<Path, Ino> := map[TOP := 0, M := 1, MP := 2, MPX := 3]
  const MOVED: map<Path, Ino> := map[TOP := 0, M := 1, Q := 2, QX := 3]
  const WITHOUT_M: map<Path, Ino> := map[TOP := 0, Q := 2, QX := 3]

  // ----- the outer location is monitored -----

  function Start(): State {
    State(Kernel(TREE, map[], map[], 4, 1, []), map[], map[], 0)
  }

  function WithM(): State {
    State(Kernel(TREE, map[1 := 1, 0 := 2], map[1 := M, 2 := TOP], 4, 3, []),
          map[1 := Wd(M, 2, [AT_M]), 2 := Wd(TOP, -1, [MoveWatch(1)])],
          map[], 1)
  }

  function WithMP(): State {
    State(Kernel(TREE, map[1 := 1, 0 := 2, 2 := 3], map[1 := M, 2 := TOP, 3 := MP], 4, 4, []),
          map[1 := Wd(M, 2, [AT_M]), 2 := Wd(TOP, -1, [MoveWatch(1)]), 3 := Wd(MP, -2, [AT_MP])],
          map[0 := [3]], 2)
  }

  const ALL_WDS: map<Ino, int> := map[1 := 1, 0 := 2, 2 := 3, 3 := 4]
  const HOMES: map<int, Path> := map[1 := M, 2 := TOP, 3 := MP, 4 := MPX]
  const ALL: Table :=
    map[1 := Wd(M, 2, [AT_M]), 2 := Wd(TOP, -1, [MoveWatch(1)]), 3 := Wd(MP, -2, [AT_MP]), 4 := Wd(MPX, -2, [AT_MPX])]

  /** /m has descriptor 1, the root 2, /m/p 3 and /m/p/x 4. */
  function Outer(dirs: map<Path, Ino>, wds: map<Ino, int>, t: Table, queue: seq<Event>): State {
    State(Kernel(dirs, wds, HOMES, 4, 5, queue), t, map[0 := [3, 4]], 3)
  }

  lemma MonitorsM()
    ensures MonitorExisting(Start(), M, OUTER, M, true, None) == WithM()
  {
    var s0 := Start();
    var (k, wd) := s0.kernel.AddWatch(M);
    assert wd == 1 && k.wds == map[1 := 1] && k.home == map[1 := M];
    var s1 := s0.(kernel := k);
    assert M[..0] == TOP;
    var (s2, c) := AddMoveWatch(s1, TOP, 1, INOTIFY_ROOT);
    assert c == 2 && s2.kernel.wds == map[1 := 1, 0 := 2] && s2.kernel.home == map[1 := M, 2 := TOP];
    assert [] + [MoveWatch(1)] == [MoveWatch(1)];
    assert s2.table == map[2 := Wd(TOP, -1, [MoveWatch(1)])];
    assert WatchPathForMoves(s2, M, 1, 1, 2) == (s2, 2);
    assert WatchAbove(s1, M, 1, true) == (s2, 2);
    assert [] + [AT_M] == [AT_M];
    assert Install(s2, M, OUTER, M, true, None, false, 1, 2) == WithM();
  }

  /** A directory below /m gets a fresh descriptor, an entry, and a place among the descendants of /m. */
  lemma Joins(s0: State, p: Path, w: Watch)
    requires p in s0.kernel.dirs && s0.kernel.dirs[p] !in s0.kernel.wds && s0.kernel.nextWd > 1
    requires M in s0.kernel.dirs && s0.kernel.dirs[M] in s0.kernel.wds && s0.kernel.wds[s0.kernel.dirs[M]] == 1
    requires s0.kernel.nextWd !in s0.table && 1 in s0.table && s0.table[1].watches == [AT_M]
    requires w == AutoscanWatch(s0.nextId, false, OUTER, M, None) && s0.kernel.dirs[p] != s0.kernel.dirs[M]
    ensures var wd := s0.kernel.nextWd;
            MonitorExisting(s0, p, OUTER, M, false, None) ==
            State(s0.kernel.AddWatch(p).0, s0.table[wd := Wd(p, -2, [w])],
                  s0.descendants[0 := (if 0 in s0.descendants then s0.descendants[0] else []) + [wd]], s0.nextId + 1)
  {
    var (k, wd) := s0.kernel.AddWatch(p);
    var s1 := s0.(kernel := k);
    assert [] + [w] == [w];
    var s2 := s1.(table := s1.table[wd := Wd(p, -2, [w])], nextId := s1.nextId + 1);
    assert s2.kernel.AddWatch(M) == (k, 1);
    assert Matches(RegularFor(M), [AT_M][0]);
    assert FirstIndex([AT_M], RegularFor(M)) == 0;
  }

  lemma MonitorsMP()
    ensures MonitorExisting(WithM(), MP, OUTER, M, false, None) == WithMP()
  {
    Joins(WithM(), MP, AT_MP);
    hide MonitorExisting;
    assert [] + [3] == [3];
    var k := WithM().kernel.AddWatch(MP).0;
    assert k.wds == map[1 := 1, 0 := 2, 2 := 3] && k.home == map[1 := M, 2 := TOP, 3 := MP];
  }

  lemma MonitorsMPX()
    ensures MonitorExisting(WithMP(), MPX, OUTER, M, false, None) == Outer(TREE, ALL_WDS, ALL, [])
  {
    Joins(WithMP(), MPX, AT_MPX);
    hide MonitorExisting;
    assert [3] + [4] == [3, 4];
    var k := WithMP().kernel.AddWatch(MPX).0;
    assert k.wds == ALL_WDS && k.home == HOMES;
    assert map[0 := [3]][0 := [3, 4]] == map[0 := [3, 4]];
  }

  lemma OuterMonitored()
    ensures MonitorRequest(Start(), OUTER, [MP, MPX]) == Outer(TREE, ALL_WDS, ALL, [])
  {
    MonitorsM();
    MonitorsMP();
    MonitorsMPX();
    hide MonitorExisting;
    assert [MP, MPX][1..] == [MPX] && [MPX][1..] == [];
    var r := Outer(TREE, ALL_WDS, ALL, []);
    assert MonitorEach(r, [], OUTER, M) == r;
    assert MonitorEach(WithMP(), [MPX], OUTER, M) == r;
    assert MonitorEach(WithM(), [MP, MPX], OUTER, M) == r;
  }

  // ----- /m/p is renamed to /q -----

  const OUT := Event(1, MovedFrom, true, "p")
  const IN := Event(2, MovedTo, true, "q")
  const SELF := Event(3, MoveSelf, true, "")
  const LEFT_WDS: map<Ino, int> := map[1 := 1, 0 := 2, 3 := 4]
  const LEFT: Table :=
    map[1 := Wd(M, 2, [AT_M]), 2 := Wd(TOP, -1, [MoveWatch(1)]), 4 := Wd(MPX, -2, [AT_MPX])]

  lemma MovedTree()
    ensures TOP in MOVED && forall p :: p in MOVED && p != [] ==> Parent(p) in MOVED
    ensures forall p, q :: p in MOVED && q in MOVED && MOVED[p] == MOVED[q] ==> p == q
  {
    assert Parent(M) == TOP && Parent(Q) == TOP && Parent(QX) == Q;
    assert forall p :: p in MOVED <==> p == TOP || p == M || p == Q || p == QX;
  }

  lemma Descriptors(wds: map<Ino, int>)
    requires wds == ALL_WDS || wds == BOTH_WDS
    ensures forall i :: i in wds ==> i < 4 && 1 <= wds[i] < if wds == ALL_WDS then 5 else 6
    ensures forall i, j :: i in wds && j in wds && wds[i] == wds[j] ==> i == j
  {
    assert 2 in BOTH_WDS && BOTH_WDS[2] == 5 && ALL_WDS[2] == 3;
  }

  lemma MovedWellFormed(k: Kernel)
    requires k.dirs == MOVED && k.nextIno == 4
    requires (k.wds == ALL_WDS && k.nextWd == 5) || (k.wds == BOTH_WDS && k.nextWd == 6)
    ensures k.WellFormed()
  {
    MovedTree();
    Descriptors(k.wds);
    assert forall p :: p in k.dirs ==> k.dirs[p] < 4;
  }

  lemma RenameIsAStep()
    ensures Step(Outer(TREE, ALL_WDS, ALL, []), Outer(MOVED, ALL_WDS, ALL, [OUT, IN, SELF]))
  {
    var k, k' := Outer(TREE, ALL_WDS, ALL, []).kernel, Outer(MOVED, ALL_WDS, ALL, [OUT, IN, SELF]).kernel;
    MovedWellFormed(k');
    hide Kernel.WellFormed;
    forall x | k.Live(x) ensures k'.Live(x) {
      var i :| i in k.wds && k.wds[i] == x;
      assert i in k'.wds && k'.wds[i] == x;
    }
    assert EnvironmentStep(k, k');
  }

  lemma QuietHandled()
    ensures HandleEvent(Outer(MOVED, ALL_WDS, ALL, [OUT, IN, SELF]), [], 0) == Outer(MOVED, ALL_WDS, ALL, [IN, SELF])
    ensures HandleEvent(Outer(MOVED, ALL_WDS, ALL, [IN, SELF]), [], 0) == Outer(MOVED, ALL_WDS, ALL, [SELF])
  {
    hide HandleEvent;
    assert [OUT, IN, SELF][1..] == [IN, SELF] && [IN, SELF][1..] == [SELF];
    QuietMove(Outer(MOVED, ALL_WDS, ALL, [OUT, IN, SELF]));
    QuietMove(Outer(MOVED, ALL_WDS, ALL, [IN, SELF]));
  }

  /** /m/p has no start point to go by, so its descriptor is given up. */
  lemma SelfHandled()
    ensures HandleEvent(Outer(MOVED, ALL_WDS, ALL, [SELF]), [], 1) == Outer(MOVED, LEFT_WDS, ALL, [IgnoredEvent(3)])
  {
    hide HandleEvent, HandleContent;
    var st := Outer(MOVED, ALL_WDS, ALL, [SELF]);
    assert [SELF][1..] == [];
    MovedAlone(st, AT_MP);
    assert Dequeued(st) == Outer(MOVED, ALL_WDS, ALL, []);
    SelfContent();
  }

  lemma SelfContent()
    ensures HandleContent(Outer(MOVED, ALL_WDS, ALL, []), SELF, AT_MP, MP, []) ==
            Outer(MOVED, LEFT_WDS, ALL, [IgnoredEvent(3)])
  {
    hide MonitorNonexisting;
    var s := Outer(MOVED, ALL_WDS, ALL, []);
    var k := s.kernel.RemoveWatch(3);
    assert 2 in s.kernel.wds && s.kernel.wds[2] == 3;
    assert k.wds == LEFT_WDS && k.queue == [IgnoredEvent(3)];
    assert FirstIndex([AT_MP], AnyStartPoint) == 1 by { assert [AT_MP][1..] == []; }
  }

  lemma SelfForgotten()
    ensures HandleEvent(Outer(MOVED, LEFT_WDS, ALL, [IgnoredEvent(3)]), [], 0) == Outer(MOVED, LEFT_WDS, LEFT, [])
  {
    hide HandleEvent, Forget;
    var st := Outer(MOVED, LEFT_WDS, ALL, [IgnoredEvent(3)]);
    assert [IgnoredEvent(3)][1..] == [];
    IgnoredHandled(st, 3);
    assert Dequeued(st) == Outer(MOVED, LEFT_WDS, ALL, []);
    SelfForgets();
  }

  lemma SelfForgets()
    ensures Forget(Outer(MOVED, LEFT_WDS, ALL, []), 3) == Outer(MOVED, LEFT_WDS, LEFT, [])
  {
    var s := Outer(MOVED, LEFT_WDS, ALL, []);
    NoneAbove(s);
    assert [AT_MP][1..] == [];
    assert DescendantsOf([AT_MP], s.descendants) == [];
    hide RemoveWatchMoves;
    assert RemoveDescendants(s, 3) == s;
    hide RemoveDescendants;
    LeftTable();
  }

  lemma NoneAbove(s: State)
    requires s.table == ALL
    ensures RemoveWatchMoves(s, 3) == s
  {
    assert ALL[3].parentWd == -2;
    assert Ancestors(ALL, 3) == [];
  }

  lemma LeftTable()
    ensures ALL - {3} == LEFT
  {
    assert (ALL - {3}).Keys == {1, 2, 4};
  }

  // ----- /q/x becomes a location -----

  /** /q/x still has descriptor 4, and /q has 5. */
  function Both(dirs: map<Path, Ino>, wds: map<Ino, int>, t: Table, queue: seq<Event>): State {
    State(Kernel(dirs, wds, HOMES[5 := Q], 4, 6, queue), t, map[0 := [3, 4]], 4)
  }

  const BOTH_WDS: map<Ino, int> := map[1 := 1, 0 := 2, 3 := 4, 2 := 5]
  const AT_X := Wd(MPX, 5, [AT_MPX, AT_QX])
  const AT_Q := Wd(Q, 2, [MoveWatch(4)])
  const BOTH: Table :=
    map[1 := Wd(M, 2, [AT_M]), 2 := Wd(TOP, -1, [MoveWatch(1), MoveWatch(4)]), 4 := AT_X, 5 := AT_Q]

  /** The move watches above /q/x. */
  function Above(): State {
    State(Kernel(MOVED, BOTH_WDS, HOMES[5 := Q], 4, 6, []),
          map[1 := Wd(M, 2, [AT_M]), 2 := Wd(TOP, -1, [MoveWatch(1), MoveWatch(4)]),
              4 := Wd(MPX, -2, [AT_MPX]), 5 := AT_Q],
          map[0 := [3, 4]], 3)
  }

  lemma MovesAbove()
    ensures WatchAbove(Outer(MOVED, LEFT_WDS, LEFT, []), QX, 4, true) == (Above(), 5)
  {
    var s0 := Outer(MOVED, LEFT_WDS, LEFT, []);
    assert QX[..0] == TOP && QX[..1] == Q;
    assert s0.kernel.AddWatch(TOP) == (s0.kernel, 2);
    assert [MoveWatch(1)] + [MoveWatch(4)] == [MoveWatch(1), MoveWatch(4)];
    var s1 := s0.(table := s0.table[2 := Wd(TOP, -1, [MoveWatch(1), MoveWatch(4)])]);
    assert AddMoveWatch(s0, TOP, 4, INOTIFY_ROOT) == (s1, 2);
    var (k, wd) := s1.kernel.AddWatch(Q);
    assert wd == 5 && k.wds == BOTH_WDS && k.home == HOMES[5 := Q];
    assert [] + [MoveWatch(4)] == [MoveWatch(4)];
    assert s1.table[5 := AT_Q] == Above().table;
    assert AddMoveWatch(s1, Q, 4, 2) == (Above(), 5);
    assert WatchPathForMoves(Above(), QX, 4, 2, 5) == (Above(), 5);
    assert WatchPathForMoves(s1, QX, 4, 1, 2) == (Above(), 5);
  }

  lemma InnerMonitored()
    ensures MonitorRequest(Outer(MOVED, LEFT_WDS, LEFT, []), INNER, []) == Both(MOVED, BOTH_WDS, BOTH, [])
  {
    var s0 := Outer(MOVED, LEFT_WDS, LEFT, []);
    assert s0.kernel.AddWatch(QX) == (s0.kernel, 4);
    MovesAbove();
    hide WatchAbove;
    InnerInstalled();
    hide Install;
    assert MonitorExisting(s0, QX, INNER, QX, true, None) == Both(MOVED, BOTH_WDS, BOTH, []);
  }

  lemma InnerInstalled()
    ensures Install(Above(), QX, INNER, QX, true, None, true, 4, 5) == Both(MOVED, BOTH_WDS, BOTH, [])
  {
    assert FirstIndex([AT_MPX], RegularFor(QX)) == 1 by { assert [AT_MPX][1..] == []; }
    assert [AT_MPX] + [AT_QX] == [AT_MPX, AT_QX];
  }

  // ----- /m is deleted -----

  const GONE_WDS: map<Ino, int> := map[0 := 2, 3 := 4, 2 := 5]
  const DELETED := Event(2, Delete, true, "m")

  lemma Deletes()
    ensures var st := Both(MOVED, BOTH_WDS, BOTH, []);
            && CanRmdir(st.kernel, M)
            && st.(kernel := Rmdir(st.kernel, M, true)) ==
               Both(WITHOUT_M, GONE_WDS, BOTH, [DeleteSelfEvent(1), IgnoredEvent(1), DELETED])
  {
    var k := Both(MOVED, BOTH_WDS, BOTH, []).kernel;
    assert Parent(M) == TOP && LastName(M) == "m";
    assert WatchOf(k, TOP) == 2 && WatchOf(k, M) == 1;
    MapsWithoutM();
    assert [] + ([DeleteSelfEvent(1), IgnoredEvent(1)] + [DELETED]) == [DeleteSelfEvent(1), IgnoredEvent(1), DELETED];
  }

  lemma MapsWithoutM()
    ensures MOVED - {M} == WITHOUT_M && BOTH_WDS - {1} == GONE_WDS
  {
    assert (MOVED - {M}).Keys == {TOP, Q, QX};
  }

  lemma DeletionIsAStep()
    ensures Step(Both(MOVED, BOTH_WDS, BOTH, []),
                 Both(WITHOUT_M, GONE_WDS, BOTH, [DeleteSelfEvent(1), IgnoredEvent(1), DELETED]))
  {
    var st := Both(MOVED, BOTH_WDS, BOTH, []);
    MovedWellFormed(st.kernel);
    Deletes();
    hide Step, Rmdir, CanRmdir, Kernel.WellFormed;
    RmdirIsAStep(st, M, true);
  }

  lemma DeletionHandled()
    ensures HandleEvent(Both(WITHOUT_M, GONE_WDS, BOTH, [DeleteSelfEvent(1), IgnoredEvent(1), DELETED]), [], 0) ==
            Both(WITHOUT_M, GONE_WDS, BOTH, [IgnoredEvent(1), DELETED])
  {
    var queue := [DeleteSelfEvent(1), IgnoredEvent(1), DELETED];
    assert queue[1..] == [IgnoredEvent(1), DELETED];
    DeletedAlone(Both(WITHOUT_M, GONE_WDS, BOTH, queue), AT_M);
  }

  const LAST_WDS: map<Ino, int> := map[0 := 2, 2 := 5]
  const LAST: Table := map[2 := Wd(TOP, -1, [MoveWatch(4)]), 4 := AT_X, 5 := AT_Q]

  function SweptOuter(): State {
    Both(WITHOUT_M, GONE_WDS, BOTH[2 := Wd(TOP, -1, [MoveWatch(4)])], [DELETED])
  }

  lemma OuterAbove()
    ensures Ancestors(BOTH, 1) == [2]
  {
    assert Chain(BOTH, 2, BOTH.Keys - {1}) == [2];
  }

  lemma OuterSwept()
    ensures RemoveWatchMoves(Both(WITHOUT_M, GONE_WDS, BOTH, [DELETED]), 1) == SweptOuter()
  {
    var s := Both(WITHOUT_M, GONE_WDS, BOTH, [DELETED]);
    OuterAbove();
    SweepOfTwo(MoveWatch(1), MoveWatch(4));
    hide Sweep, Ancestors;
    assert [2][1..] == [];
    assert SweepEntry(s, 2, 1) == SweptOuter();
  }

  /** Descriptor 3 is dead already; 4 is now that of /q/x. */
  lemma OuterDescendants()
    ensures RemoveDescendants(SweptOuter(), 1) ==
            SweptOuter().(kernel := Both(WITHOUT_M, LAST_WDS, BOTH, [DELETED, IgnoredEvent(4)]).kernel)
  {
    var s := SweptOuter();
    assert [AT_M][1..] == [];
    assert DescendantsOf([AT_M], s.descendants) == [3, 4];
    hide DescendantsOf, RemoveWatches;
    DescendantsRemoved(s.kernel);
  }

  lemma DescendantsRemoved(k: Kernel)
    requires k.wds == GONE_WDS && k.queue == [DELETED]
    ensures RemoveWatches(k, [3, 4]) == k.(wds := LAST_WDS, queue := [DELETED, IgnoredEvent(4)])
  {
    assert !k.Live(3);
    assert 3 in k.wds && k.wds[3] == 4;
    var k' := k.RemoveWatch(4);
    assert k'.wds == LAST_WDS && k'.queue == [DELETED, IgnoredEvent(4)];
    assert [3, 4][1..] == [4] && [4][1..] == [];
    assert RemoveWatches(k, [4]) == k';
  }

  lemma OuterForgets()
    ensures Forget(Both(WITHOUT_M, GONE_WDS, BOTH, [DELETED]), 1) ==
            Both(WITHOUT_M, LAST_WDS, LAST, [DELETED, IgnoredEvent(4)])
  {
    OuterSwept();
    OuterDescendants();
    hide RemoveWatchMoves, RemoveDescendants;
    LastTable();
  }

  lemma LastTable()
    ensures SweptOuter().table - {1} == LAST
  {
    var t := SweptOuter().table;
    assert t[2] == Wd(TOP, -1, [MoveWatch(4)]) && t[4] == AT_X && t[5] == AT_Q;
    assert (t - {1}).Keys == {2, 4, 5};
  }

  lemma OuterForgotten()
    ensures HandleEvent(Both(WITHOUT_M, GONE_WDS, BOTH, [IgnoredEvent(1), DELETED]), [], 0) ==
            Both(WITHOUT_M, LAST_WDS, LAST, [DELETED, IgnoredEvent(4)])
  {
    var st := Both(WITHOUT_M, GONE_WDS, BOTH, [IgnoredEvent(1), DELETED]);
    assert [IgnoredEvent(1), DELETED][1..] == [DELETED];
    IgnoredHandled(st, 1);
    OuterForgets();
    hide HandleEvent, Forget;
    assert Dequeued(st) == Both(WITHOUT_M, GONE_WDS, BOTH, [DELETED]);
  }

  // ----- the run -----

  function Run(): seq<State> {
    [Start(),
     Outer(TREE, ALL_WDS, ALL, []),
     Outer(MOVED, ALL_WDS, ALL, [OUT, IN, SELF]),
     Outer(MOVED, ALL_WDS, ALL, [IN, SELF]),
     Outer(MOVED, ALL_WDS, ALL, [SELF]),
     Outer(MOVED, LEFT_WDS, ALL, [IgnoredEvent(3)]),
     Outer(MOVED, LEFT_WDS, LEFT, []),
     Both(MOVED, BOTH_WDS, BOTH, []),
     Both(WITHOUT_M, GONE_WDS, BOTH, [DeleteSelfEvent(1), IgnoredEvent(1), DELETED]),
     Both(WITHOUT_M, GONE_WDS, BOTH, [IgnoredEvent(1), DELETED]),
     Both(WITHOUT_M, LAST_WDS, LAST, [DELETED, IgnoredEvent(4)])]
  }

  ghost predicate Handled(st: State, st': State) {
    [] in st.kernel.dirs && st.kernel.queue != [] && exists steps :: st' == HandleEvent(st, [], steps)
  }

  lemma RunHandles(i: nat)
    requires 2 <= i < 6 || 8 <= i < 10
    ensures Handled(Run()[i], Run()[i + 1])
  {
    hide HandleEvent;
    if i < 4 {
      QuietHandled();
    } else if i == 4 {
      SelfHandled();
    } else if i == 5 {
      SelfForgotten();
    } else if i == 8 {
      DeletionHandled();
    } else {
      OuterForgotten();
    }
  }

  lemma RunSteps(i: nat)
    requires i < 10
    ensures Step(Run()[i], Run()[i + 1])
  {
    hide HandleEvent, MonitorRequest, EnvironmentStep;
    if 2 <= i < 6 || 8 <= i {
      RunHandles(i);
    } else if i == 0 {
      OuterMonitored();
      assert Run()[1] == MonitorRequest(Run()[0], OUTER, [MP, MPX]);
    } else if i == 1 {
      RenameIsAStep();
    } else if i == 6 {
      InnerMonitored();
      assert Run()[7] == MonitorRequest(Run()[6], INNER, []);
    } else {
      DeletionIsAStep();
    }
  }

  lemma StartWellFormed()
    ensures Start().kernel.WellFormed()
  {
    assert Parent(M) == TOP && Parent(MP) == M && Parent(MPX) == MP;
    assert forall p :: p in TREE <==> p == TOP || p == M || p == MP || p == MPX;
  }

  lemma RunBehaves()
    ensures Behaviour(Run())
  {
    StartWellFormed();
    hide Kernel.WellFormed, Step;
    var run := Run();
    forall i | 0 <= i < |run| - 1 ensures Step(run[i], run[i + 1]) { RunSteps(i); }
  }

  /** /q/x is watched through the descriptor it had as /m/p/x, as a start point, and is no ancestor of /m. */
  lemma InnerHeld()
    ensures var st := Run()[9];
            && 4 in st.table && WatchOf(st.kernel, QX) == 4 && st.kernel.Live(4)
            && StartsAt(st.table[4].watches, QX) && 4 !in Ancestors(st.table, 1)
  {
    var st := Run()[9];
    OuterAbove();
    hide Ancestors;
    assert 3 in st.kernel.wds && st.kernel.wds[3] == 4;
    assert [AT_MPX, AT_QX][1] == AT_QX;
    assert Matches(RegularFor(QX), AT_QX);
  }

  /** The steps of the run: /m is monitored recursively, /m/p is renamed to /q and the events are handled,
      /q/x is monitored, /m is deleted, and its first two events are handled. */
  ghost predicate AsDescribed(run: seq<State>) {
    && |run| == 11 && Behaviour(run)
    && run[1] == MonitorRequest(run[0], OUTER, [MP, MPX])
    && [] in run[6].kernel.dirs && run[7] == MonitorRequest(run[6], INNER, [])
    && run[2].kernel.dirs == MOVED && run[2].kernel.queue == [OUT, IN, SELF]
    && CanRmdir(run[7].kernel, M) && run[8] == run[7].(kernel := Rmdir(run[7].kernel, M, true))
    && forall i :: 2 <= i < 6 || 8 <= i < 10 ==> Handled(run[i], run[i + 1])
  }

  lemma RunAsDescribed()
    ensures AsDescribed(Run())
  {
    hide Behaviour, HandleEvent, MonitorRequest, Handled, CanRmdir, Rmdir;
    RunBehaves();
    var run := Run();
    assert run[1] == MonitorRequest(run[0], OUTER, [MP, MPX]) by { OuterMonitored(); }
    assert run[7] == MonitorRequest(run[6], INNER, []) by { InnerMonitored(); }
    assert CanRmdir(run[7].kernel, M) && run[8] == run[7].(kernel := Rmdir(run[7].kernel, M, true)) by { Deletes(); }
    AllHandled(run);
  }

  lemma AllHandled(run: seq<State>)
    requires run == Run()
    ensures forall i :: 2 <= i < 6 || 8 <= i < 10 ==> Handled(run[i], run[i + 1])
  {
    hide Handled;
    forall i | 2 <= i < 6 || 8 <= i < 10 ensures Handled(run[i], run[i + 1]) { RunHandles(i); }
  }

  /** Handling IN_IGNORED for /m takes the descriptor of /q/x, which exists, is a start point of its own and
      no ancestor of /m. */
  lemma DescendantTakenFromAnother()
    ensures AsDescribed(Run())
    ensures var st, st' := Run()[9], Run()[10];
            && st.kernel.queue != [] && st.kernel.queue[0] == IgnoredEvent(1)
            && 4 in st.table && WatchOf(st.kernel, INNER.location) == 4 && st.kernel.Live(4)
            && StartsAt(st.table[4].watches, INNER.location) && 4 !in Ancestors(st.table, 1)
            && INNER.location in st'.kernel.dirs && !st'.kernel.Live(4)
  {
    hide AsDescribed, Ancestors, StartsAt;
    RunAsDescribed();
    InnerHeld();
  }

  // ----- a persistent location waits below a location that is given up -----

  const MPXY: Path := ["m", "p", "x", "y"]
  const WAITER := Adir(MPXY, false, false, true)
  const WAITING := AutoscanWatch(4, false, WAITER, MPXY, Some(PathArray(3, MPXY)))
  const WAITS: Table := ALL[4 := Wd(MPX, -2, [AT_MPX, WAITING])]
  const RELEASED: Table := ALL[4 := Wd(MPX, -2, [WAITING])]
  const IGNORED_1 := IgnoredEvent(1)
  const IGNORED_2 := IgnoredEvent(2)
  const IGNORED_3 := IgnoredEvent(3)
  const IGNORED_4 := IgnoredEvent(4)

  function Waits(wds: map<Ino, int>, t: Table, queue: seq<Event>): State {
    State(Kernel(TREE, wds, HOMES, 4, 5, queue), t, map[0 := [3, 4]], 5)
  }

  /** The watch for /m/p/x/y goes to /m/p/x. */
  lemma WaiterRequested()
    ensures MonitorRequest(Outer(TREE, ALL_WDS, ALL, []), WAITER, []) == Waits(ALL_WDS, WAITS, [])
  {
    var s := Outer(TREE, ALL_WDS, ALL, []).(nextId := 4);
    assert MPXY[..3] == MPX && MPXY !in TREE && Parent(MPXY) == MPX;
    assert Deepest(TREE, MPXY) == 3;
    WaiterInstalled(s);
    hide MonitorExisting;
    assert MonitorNonexisting(Outer(TREE, ALL_WDS, ALL, []), MPXY, WAITER, MPXY) == Waits(ALL_WDS, WAITS, []);
  }

  lemma WaiterInstalled(s: State)
    requires s == Outer(TREE, ALL_WDS, ALL, []).(nextId := 4)
    ensures MonitorExisting(s, MPX, WAITER, MPXY, false, Some(PathArray(3, MPXY))) == Waits(ALL_WDS, WAITS, [])
  {
    assert s.kernel.AddWatch(MPX) == (s.kernel, 4);
    assert [AT_MPX] + [WAITING] == [AT_MPX, WAITING];
    var s1 := Waits(ALL_WDS, WAITS, []);
    assert s1.kernel.AddWatch(MPXY) == (s1.kernel, -1);
    assert AddDescendant(s1, -1, 4, WAITER) == s1;
  }

  // The location /m and its tree are given up: two descriptors go, the third has another watch.

  const WITHOUT_1: map<Ino, int> := map[0 := 2, 2 := 3, 3 := 4]
  const WITHOUT_3: map<Ino, int> := map[0 := 2, 3 := 4]

  lemma ReleasesAlone(st: State, p: Path, wd: int)
    requires p in st.kernel.dirs && st.kernel.dirs[p] in st.kernel.wds && st.kernel.wds[st.kernel.dirs[p]] == wd
    requires 0 <= wd && wd in st.table && |st.table[wd].watches| == 1
    requires Matches(RegularFor(M), st.table[wd].watches[0])
    ensures UnmonitorDirectory(st, p, OUTER) == st.(kernel := st.kernel.RemoveWatch(wd))
  {
    assert st.kernel.AddWatch(p) == (st.kernel, wd);
    assert FirstIndex(st.table[wd].watches, RegularFor(M)) == 0;
  }

  lemma FirstReleased()
    ensures UnmonitorDirectory(Waits(ALL_WDS, WAITS, []), M, OUTER) == Waits(WITHOUT_1, WAITS, [IGNORED_1])
  {
    var st := Waits(ALL_WDS, WAITS, []);
    ReleasesAlone(st, M, 1);
    hide UnmonitorDirectory;
    FirstRemoved(st.kernel);
  }

  lemma FirstRemoved(k: Kernel)
    requires k.wds == ALL_WDS && k.queue == []
    ensures k.RemoveWatch(1) == k.(wds := WITHOUT_1, queue := [IGNORED_1])
  {
    assert 1 in k.wds && k.wds[1] == 1;
    assert k.RemoveWatch(1).wds == WITHOUT_1;
  }

  lemma SecondReleased()
    ensures UnmonitorDirectory(Waits(WITHOUT_1, WAITS, [IGNORED_1]), MP, OUTER) ==
            Waits(WITHOUT_3, WAITS, [IGNORED_1, IGNORED_3])
  {
    var st := Waits(WITHOUT_1, WAITS, [IGNORED_1]);
    ReleasesAlone(st, MP, 3);
    hide UnmonitorDirectory;
    var k := st.kernel.RemoveWatch(3);
    assert 2 in st.kernel.wds && st.kernel.wds[2] == 3;
    assert k.wds == WITHOUT_3 && k.queue == [IGNORED_1, IGNORED_3];
  }

  lemma ThirdReleased()
    ensures UnmonitorDirectory(Waits(WITHOUT_3, WAITS, [IGNORED_1, IGNORED_3]), MPX, OUTER) ==
            Waits(WITHOUT_3, RELEASED, [IGNORED_1, IGNORED_3])
  {
    var st := Waits(WITHOUT_3, WAITS, [IGNORED_1, IGNORED_3]);
    assert st.kernel.AddWatch(MPX) == (st.kernel, 4);
    var ws := [AT_MPX, WAITING];
    assert Matches(RegularFor(M), ws[0]);
    assert FirstIndex(ws, RegularFor(M)) == 0;
    assert RemoveUnordered(ws, 0) == [WAITING];
    assert WAITS[4 := Wd(MPX, -2, [WAITING])] == RELEASED;
  }

  lemma OuterReleased()
    ensures UnmonitorRequest(Waits(ALL_WDS, WAITS, []), OUTER, [MP, MPX]) ==
            Waits(WITHOUT_3, RELEASED, [IGNORED_1, IGNORED_3])
  {
    FirstReleased();
    SecondReleased();
    ThirdReleased();
    hide UnmonitorDirectory;
    assert [MP, MPX][1..] == [MPX] && [MPX][1..] == [];
    var s := Waits(WITHOUT_1, WAITS, [IGNORED_1]);
    var s1 := Waits(WITHOUT_3, WAITS, [IGNORED_1, IGNORED_3]);
    var s2 := Waits(WITHOUT_3, RELEASED, [IGNORED_1, IGNORED_3]);
    assert UnmonitorEach(s2, [], OUTER) == s2;
    assert UnmonitorEach(s1, [MPX], OUTER) == s2;
    assert UnmonitorEach(s, [MP, MPX], OUTER) == s2;
  }

  // The events: the first one takes the descriptor under the waiting watch.

  const LATER: Table := map[2 := Wd(TOP, -1, [MoveWatch(1)]), 3 := Wd(MP, -2, [AT_MP]), 4 := Wd(MPX, -2, [WAITING])]
  const LATER_STILL: Table := map[2 := Wd(TOP, -1, [MoveWatch(1)]), 4 := Wd(MPX, -2, [WAITING])]
  const LAST_ENTRY: Table := map[4 := Wd(MPX, -2, [WAITING])]

  lemma ReleasedAbove()
    ensures RemoveWatchMoves(Waits(WITHOUT_3, RELEASED, [IGNORED_3]), 1) ==
            Waits(map[3 := 4], RELEASED, [IGNORED_3, IGNORED_2])
  {
    var s := Waits(WITHOUT_3, RELEASED, [IGNORED_3]);
    assert Chain(RELEASED, 2, RELEASED.Keys - {1}) == [2];
    assert Ancestors(RELEASED, 1) == [2];
    hide Ancestors;
    assert [2][1..] == [];
    var k := s.kernel.RemoveWatch(2);
    assert 0 in s.kernel.wds && s.kernel.wds[0] == 2;
    assert k.wds == map[3 := 4] && k.queue == [IGNORED_3, IGNORED_2];
    assert SweepEntry(s, 2, 1) == s.(kernel := k);
  }

  lemma ReleasedDescendants()
    ensures RemoveDescendants(Waits(map[3 := 4], RELEASED, [IGNORED_3, IGNORED_2]), 1) ==
            Waits(map[], RELEASED, [IGNORED_3, IGNORED_2, IGNORED_4])
  {
    var s := Waits(map[3 := 4], RELEASED, [IGNORED_3, IGNORED_2]);
    assert [AT_M][1..] == [];
    assert DescendantsOf([AT_M], s.descendants) == [3, 4];
    assert !s.kernel.Live(3);
    assert 3 in s.kernel.wds && s.kernel.wds[3] == 4;
    var k := s.kernel.RemoveWatch(4);
    assert k.wds == map[] && k.queue == [IGNORED_3, IGNORED_2, IGNORED_4];
    assert [3, 4][1..] == [4] && [4][1..] == [];
    assert RemoveWatches(s.kernel, [4]) == k;
  }

  lemma ReleasedTable()
    ensures RELEASED - {1} == LATER && LATER - {3} == LATER_STILL && LATER_STILL - {2} == LAST_ENTRY
    ensures LAST_ENTRY - {4} == map[]
  {
    assert (RELEASED - {1}).Keys == {2, 3, 4} && (LATER - {3}).Keys == {2, 4} && (LATER_STILL - {2}).Keys == {4};
  }

  lemma WaiterTaken()
    ensures HandleEvent(Waits(WITHOUT_3, RELEASED, [IGNORED_1, IGNORED_3]), [], 0) ==
            Waits(map[], LATER, [IGNORED_3, IGNORED_2, IGNORED_4])
  {
    hide HandleEvent, RemoveWatchMoves, RemoveDescendants;
    var st := Waits(WITHOUT_3, RELEASED, [IGNORED_1, IGNORED_3]);
    assert [IGNORED_1, IGNORED_3][1..] == [IGNORED_3];
    IgnoredHandled(st, 1);
    ReleasedAbove();
    ReleasedDescendants();
    ReleasedTable();
  }

  /** An entry with nothing above it and no descendants just goes. */
  lemma ForgetsAlone(st: State, wd: int)
    requires wd in st.table && st.table[wd].parentWd < 0 && |st.table[wd].watches| == 1
    requires st.table[wd].watches[0].AutoscanWatch? ==> st.table[wd].watches[0].id !in st.descendants
    ensures Forget(st, wd) == st.(table := st.table - {wd})
  {
    assert Ancestors(st.table, wd) == [];
    assert st.table[wd].watches[1..] == [];
    assert DescendantsOf(st.table[wd].watches, st.descendants) == [];
  }

  lemma RestHandled()
    ensures HandleEvent(Waits(map[], LATER, [IGNORED_3, IGNORED_2, IGNORED_4]), [], 0) ==
            Waits(map[], LATER_STILL, [IGNORED_2, IGNORED_4])
    ensures HandleEvent(Waits(map[], LATER_STILL, [IGNORED_2, IGNORED_4]), [], 0) ==
            Waits(map[], LAST_ENTRY, [IGNORED_4])
    ensures HandleEvent(Waits(map[], LAST_ENTRY, [IGNORED_4]), [], 0) == Waits(map[], map[], [])
  {
    hide HandleEvent, Forget;
    ReleasedTable();
    RestHandledOne(LATER, 3, [IGNORED_3, IGNORED_2, IGNORED_4], [IGNORED_2, IGNORED_4]);
    RestHandledOne(LATER_STILL, 2, [IGNORED_2, IGNORED_4], [IGNORED_4]);
    RestHandledOne(LAST_ENTRY, 4, [IGNORED_4], []);
  }

  lemma RestHandledOne(t: Table, wd: int, queue: seq<Event>, rest: seq<Event>)
    requires queue == [IgnoredEvent(wd)] + rest
    requires wd in t && t[wd].parentWd < 0 && |t[wd].watches| == 1
    requires t[wd].watches[0].AutoscanWatch? ==> t[wd].watches[0].id != 0
    ensures HandleEvent(Waits(map[], t, queue), [], 0) == Waits(map[], t - {wd}, rest)
  {
    hide HandleEvent, Forget;
    var st := Waits(map[], t, queue);
    assert queue[1..] == rest;
    IgnoredHandled(st, wd);
    ForgetsAlone(Dequeued(st), wd);
  }

  function ReleaseRun(): seq<State> {
    [Start(),
     Outer(TREE, ALL_WDS, ALL, []),
     Waits(ALL_WDS, WAITS, []),
     Waits(WITHOUT_3, RELEASED, [IGNORED_1, IGNORED_3]),
     Waits(map[], LATER, [IGNORED_3, IGNORED_2, IGNORED_4]),
     Waits(map[], LATER_STILL, [IGNORED_2, IGNORED_4]),
     Waits(map[], LAST_ENTRY, [IGNORED_4]),
     Waits(map[], map[], [])]
  }

  lemma ReleaseHandles(i: nat)
    requires 3 <= i < 7
    ensures Handled(ReleaseRun()[i], ReleaseRun()[i + 1])
  {
    hide HandleEvent;
    if i == 3 { WaiterTaken(); } else { RestHandled(); }
  }

  const RELEASE_ACTS := [Request(OUTER), Request(WAITER), Release(OUTER), Handling, Handling, Handling, Handling]

  lemma ReleaseRequests(j: nat)
    requires j < 3
    ensures Takes(ReleaseRun()[j], ReleaseRun()[j + 1], RELEASE_ACTS[j])
  {
    hide MonitorRequest, UnmonitorRequest, HandleEvent;
    var run := ReleaseRun();
    if j == 0 {
      OuterMonitored();
      assert TreeOf(run[0], OUTER, [MP, MPX]) && run[1] == MonitorRequest(run[0], OUTER, [MP, MPX]);
    } else if j == 1 {
      WaiterRequested();
      assert TreeOf(run[1], WAITER, []) && run[2] == MonitorRequest(run[1], WAITER, []);
    } else {
      OuterReleased();
      assert TreeOf(run[2], OUTER, [MP, MPX]) && run[3] == UnmonitorRequest(run[2], OUTER, [MP, MPX]);
    }
  }

  lemma ReleaseTakes(j: nat)
    requires j < 7
    ensures Takes(ReleaseRun()[j], ReleaseRun()[j + 1], RELEASE_ACTS[j])
  {
    if j < 3 {
      ReleaseRequests(j);
    } else {
      hide HandleEvent, Takes;
      ReleaseHandles(j);
      assert BelowEvent(ReleaseRun()[j], []);
      HandledTakes(ReleaseRun()[j], ReleaseRun()[j + 1]);
    }
  }

  lemma HandledTakes(st: State, st': State)
    requires Handled(st, st') && BelowEvent(st, [])
    ensures Takes(st, st', Handling)
  {
    hide HandleEvent, BelowEvent;
  }

  lemma ReleaseHistory()
    ensures History(ReleaseRun(), RELEASE_ACTS)
  {
    StartWellFormed();
    hide Takes;
    var run := ReleaseRun();
    forall j | 0 <= j < 7 ensures Takes(run[j], run[j + 1], RELEASE_ACTS[j]) { ReleaseTakes(j); }
  }

  /** The waiting location is requested by a persistent directory and not given up, and no event of the run leads
      to a recheck. */
  lemma WaiterIsHeld()
    ensures Holding(RELEASE_ACTS, MPXY, 1, 7)
    ensures forall j :: 1 < j < 7 && RELEASE_ACTS[j].Handling? ==> ReachedAtHead(ReleaseRun()[j], MPXY)
  {
    assert forall j :: 3 <= j < 7 ==> !Rechecks(ReleaseRun()[j].kernel.queue[0]);
  }

  /** Giving up a location makes a persistent one below it be forgotten. /m is monitored recursively and then
      unmonitored while /m/p/x waits for the persistent /m/p/x/y; that watch is left in place, but handling
      IN_IGNORED for /m takes its descriptor as a descendant. Nothing is renamed, no entry ever waits for two
      paths, and the tree does not change. */
  lemma ReleaseForgets()
    ensures var run := ReleaseRun();
            && History(run, RELEASE_ACTS) && Holding(RELEASE_ACTS, MPXY, 1, 7)
            && AllReached(run, RELEASE_ACTS, MPXY, 1, 7)
            && Watched(run[2].kernel, run[2].table, MPXY)
            && run[7].kernel.queue == [] && run[7].table == map[] && !Watched(run[7].kernel, run[7].table, MPXY)
  {
    hide History, Holding, ReachedAtHead;
    ReleaseHistory();
    WaiterIsHeld();
    WaiterWatched();
  }

  lemma WaiterWatched()
    ensures Watched(ReleaseRun()[2].kernel, ReleaseRun()[2].table, MPXY)
  {
    var st := ReleaseRun()[2];
    assert MPXY[..3] == MPX && MPXY !in TREE && Parent(MPXY) == MPX;
    assert Deepest(TREE, MPXY) == 3;
    assert 3 in st.kernel.wds && st.kernel.wds[3] == 4;
    assert [AT_MPX, WAITING][1] == WAITING;
  }
}
