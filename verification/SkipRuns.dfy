/**
 Two runs in which a loop that removes and then advances skips what it swapped in: a persistent
 directory is created and not noticed because another one waits in the same entry, and a move watch
 outlives the descriptor it was for.
 */
module SkipRuns {
  import opened Wrappers
  import opened InotifyKernel
  import opened WatchTable
  import opened WatchInvariant
  import opened WatchPersistence
  import opened PersistentRuns
  import opened TreeSteps
  import opened WatchSteps

  const TOP: Path := []
  const A: Path := ["a"]
  const B: Path := ["b"]

  // ----- two missing paths in one entry -----

  const DA := Adir(A, false, false, true)
  const DB := Adir(B, false, false, true)

  function WaitingA(id: nat): Watch {
    AutoscanWatch(id, false, DA, A, Some(PathArray(0, A)))
  }

  const WAITING_B := AutoscanWatch(3, false, DB, B, Some(PathArray(2, B)))
  const ROOT: map<Path, Ino> := map[TOP := 0]
  const ROOT_AND_B: map<Path, Ino> := map[TOP := 0, B := 1]
  const CREATED := Event(1, Create, true, "b")

  function Nothing(): State {
    State(Kernel(ROOT, map[], map[], 1, 1, []), map[], map[], 0)
  }

  /** The root has descriptor 1 and these watches. */
  function AtRoot(dirs: map<Path, Ino>, nextIno: nat, queue: seq<Event>, ws: seq<Watch>, nextId: nat): State {
    State(Kernel(dirs, map[0 := 1], map[1 := TOP], nextIno, 2, queue), map[1 := Wd(TOP, -2, ws)], map[], nextId)
  }

  /** A watch for a missing path is added to the root's entry. */
  lemma WaitsAtRoot(s: State, f: Adir, arr: PathArray)
    requires TOP in s.kernel.dirs && s.kernel.dirs[TOP] == 0 && s.kernel.wds == map[0 := 1]
    requires 1 in s.table && s.table[1].parentWd < 0 && -1 !in s.table && f.location !in s.kernel.dirs
    ensures var w := AutoscanWatch(s.nextId, false, f, f.location, Some(arr));
            MonitorExisting(s, TOP, f, f.location, false, Some(arr)) ==
            s.(table := s.table[1 := AppendWatch(s.table[1], w)], nextId := s.nextId + 1)
  {
    assert s.kernel.AddWatch(TOP) == (s.kernel, 1);
    var w := AutoscanWatch(s.nextId, false, f, f.location, Some(arr));
    var s1 := s.(table := s.table[1 := AppendWatch(s.table[1], w)], nextId := s.nextId + 1);
    assert s1.kernel.AddWatch(f.location) == (s1.kernel, -1);
    assert AddDescendant(s1, -1, 1, f) == s1;
  }

  lemma DeepestIsRoot(dirs: map<Path, Ino>, p: Path)
    requires TOP in dirs && |p| == 1 && p !in dirs
    ensures Deepest(dirs, p) == 0 && p[..0] == TOP
  {
    assert Parent(p) == TOP;
  }

  lemma RequestedA()
    ensures MonitorRequest(Nothing(), DA, []) == AtRoot(ROOT, 1, [], [WaitingA(1)], 2)
  {
    var s := Nothing().(nextId := 1);
    DeepestIsRoot(ROOT, A);
    var (k, wd) := s.kernel.AddWatch(TOP);
    assert wd == 1 && k.wds == map[0 := 1] && k.home == map[1 := TOP];
    var s1 := State(k, map[1 := Wd(TOP, -2, [WaitingA(1)])], map[], 2);
    assert [] + [WaitingA(1)] == [WaitingA(1)];
    assert s1.kernel.AddWatch(A) == (s1.kernel, -1);
    assert AddDescendant(s1, -1, 1, DA) == s1;
    assert MonitorExisting(s, TOP, DA, A, false, Some(PathArray(0, A))) == s1;
    hide MonitorExisting;
    assert MonitorNonexisting(Nothing(), A, DA, A) == s1;
  }

  lemma RequestedB()
    ensures MonitorRequest(AtRoot(ROOT, 1, [], [WaitingA(1)], 2), DB, []) ==
            AtRoot(ROOT, 1, [], [WaitingA(1), WAITING_B], 4)
  {
    var st := AtRoot(ROOT, 1, [], [WaitingA(1)], 2);
    DeepestIsRoot(ROOT, B);
    WaitsAtRoot(st.(nextId := 3), DB, PathArray(2, B));
    assert [WaitingA(1)] + [WAITING_B] == [WaitingA(1), WAITING_B];
    hide MonitorExisting;
    assert MonitorNonexisting(st, B, DB, B) == AtRoot(ROOT, 1, [], [WaitingA(1), WAITING_B], 4);
  }

  lemma CreatedB()
    ensures var st := AtRoot(ROOT, 1, [], [WaitingA(1), WAITING_B], 4);
            && CanMkdir(st.kernel, B)
            && st.(kernel := Mkdir(st.kernel, B)) ==
               AtRoot(ROOT_AND_B, 2, [CREATED], [WaitingA(1), WAITING_B], 4)
  {
    assert Parent(B) == TOP && LastName(B) == "b";
    var k := AtRoot(ROOT, 1, [], [WaitingA(1), WAITING_B], 4).kernel;
    assert WatchOf(k, TOP) == 1;
    assert k.dirs[B := 1] == ROOT_AND_B;
    assert [] + [CREATED] == [CREATED];
  }

  /** A's watch is taken out and put back, wherever it stands, and B's is not looked at. */
  lemma RecheckedA(ws: seq<Watch>, i: nat, id: nat, nextId: nat)
    requires (ws == [WaitingA(id), WAITING_B] && i == 0) || (ws == [WAITING_B, WaitingA(id)] && i == 1)
    ensures RecheckOne(AtRoot(ROOT_AND_B, 2, [], ws, nextId), 1, i) ==
            AtRoot(ROOT_AND_B, 2, [], [WAITING_B, WaitingA(nextId)], nextId + 1)
  {
    var st := AtRoot(ROOT_AND_B, 2, [], ws, nextId);
    DeepestIsRoot(ROOT_AND_B, A);
    assert Matches(MissingWith(0), ws[i]);
    assert FirstIndex(ws, MissingWith(0)) == i;
    assert RemoveUnordered(ws, i) == [WAITING_B];
    var s := AtRoot(ROOT_AND_B, 2, [], [WAITING_B], nextId);
    assert DropWatch(st, 1, i) == s;
    assert RemoveNonexistingMonitor(st, 1, 0) == s;
    WaitsAtRoot(s, DA, PathArray(0, A));
    assert [WAITING_B] + [WaitingA(nextId)] == [WAITING_B, WaitingA(nextId)];
    hide MonitorExisting;
  }

  lemma NotNoticed()
    ensures HandleEvent(AtRoot(ROOT_AND_B, 2, [CREATED], [WaitingA(1), WAITING_B], 4), [], 0) ==
            AtRoot(ROOT_AND_B, 2, [], [WAITING_B, WaitingA(5)], 6)
  {
    var st := AtRoot(ROOT_AND_B, 2, [CREATED], [WaitingA(1), WAITING_B], 4);
    assert [CREATED][1..] == [];
    var s := AtRoot(ROOT_AND_B, 2, [], [WaitingA(1), WAITING_B], 4);
    assert Dequeued(st) == s;
    RecheckedA([WaitingA(1), WAITING_B], 0, 1, 4);
    RecheckedA([WAITING_B, WaitingA(4)], 1, 4, 5);
    hide RecheckOne;
    var s1 := AtRoot(ROOT_AND_B, 2, [], [WAITING_B, WaitingA(4)], 5);
    var s2 := AtRoot(ROOT_AND_B, 2, [], [WAITING_B, WaitingA(5)], 6);
    assert RecheckFrom(s2, 1, 2, 2) == s2;
    assert RecheckFrom(s1, 1, 1, 2) == s2;
    assert RecheckNonexistingMonitors(s, 1) == s2;
    hide RecheckNonexistingMonitors;
    assert BestMatch(s.table[1].watches, TOP + ["b"]).None?;
  }

  function WaitingRun(): seq<State> {
    [Nothing(),
     AtRoot(ROOT, 1, [], [WaitingA(1)], 2),
     AtRoot(ROOT, 1, [], [WaitingA(1), WAITING_B], 4),
     AtRoot(ROOT_AND_B, 2, [CREATED], [WaitingA(1), WAITING_B], 4),
     AtRoot(ROOT_AND_B, 2, [], [WAITING_B, WaitingA(5)], 6)]
  }

  const WAITING_ACTS := [Request(DA), Request(DB), TreeChange, Handling]

  lemma WaitingHistory()
    ensures History(WaitingRun(), WAITING_ACTS)
  {
    var run := WaitingRun();
    RootAloneWellFormed();
    forall j | 0 <= j < 4 ensures Takes(run[j], run[j + 1], WAITING_ACTS[j]) { WaitingTakes(j); }
  }

  lemma RootAloneWellFormed()
    ensures Nothing().kernel.WellFormed()
  {
  }

  lemma WaitingTakes(j: nat)
    requires j < 4
    ensures Takes(WaitingRun()[j], WaitingRun()[j + 1], WAITING_ACTS[j])
  {
    hide MonitorRequest, HandleEvent, CanMkdir, Mkdir;
    var run := WaitingRun();
    if j == 0 {
      RequestedA();
      assert TreeOf(run[0], DA, []) && run[1] == MonitorRequest(run[0], DA, []);
    } else if j == 1 {
      RequestedB();
      assert TreeOf(run[1], DB, []) && run[2] == MonitorRequest(run[1], DB, []);
    } else if j == 2 {
      CreatedB();
      assert TreeStep(run[2].kernel, run[3].kernel);
    } else {
      NotNoticed();
      assert BelowEvent(run[3], []) && run[4] == HandleEvent(run[3], [], 0);
    }
  }

  /** The second location is requested by a persistent directory and never given up, nor is any other. */
  lemma SecondIsHeld()
    ensures Holding(WAITING_ACTS, B, 1, 4) && Sheltered(WAITING_ACTS, B)
  {
  }

  /** No rename is needed to forget a persistent directory, nor a release. Two wait in the root's entry; one of
      them is created and the event handled, but the pass looks twice at the other one. The queue is empty, the
      directory exists, and nothing watches it. */
  lemma SecondOfTwoForgotten()
    ensures var run := WaitingRun();
            && History(run, WAITING_ACTS) && Holding(WAITING_ACTS, B, 1, 4) && Sheltered(WAITING_ACTS, B)
            && CanMkdir(run[2].kernel, B) && run[3] == run[2].(kernel := Mkdir(run[2].kernel, B))
            && run[4].kernel.queue == [] && B in run[4].kernel.dirs && WatchOf(run[4].kernel, B) == -1
            && !Watched(run[4].kernel, run[4].table, B)
  {
    WaitingHistory();
    SecondIsHeld();
    CreatedB();
    hide History, Holding, Sheltered, MonitorRequest, HandleEvent;
    var k := WaitingRun()[4].kernel;
    assert B[..1] == B;
    assert Deepest(k.dirs, B) == 1;
  }

  // ----- one location requested twice -----

  const EA := Adir(A, false, false, false)
  const EB := Adir(B, false, false, false)
  const AT_A := Wd(A, 2, [AutoscanWatch(0, true, EA, A, None)])
  const AT_B := Wd(B, 2, [AutoscanWatch(1, true, EB, B, None)])
  const A_AND_B: map<Path, Ino> := map[TOP := 0, A := 1, B := 2]
  const ONLY_B: map<Path, Ino> := map[TOP := 0, B := 2]
  const HOMES: map<int, Path> := map[1 := A, 2 := TOP, 3 := B]
  const DELETED := Event(2, Delete, true, "a")

  function TwoDirectories(): State {
    State(Kernel(A_AND_B, map[], map[], 3, 1, []), map[], map[], 0)
  }

  /** /a has descriptor 1 and the root 2. */
  function OnlyA(): State {
    State(Kernel(A_AND_B, map[1 := 1, 0 := 2], map[1 := A, 2 := TOP], 3, 3, []),
          map[1 := AT_A, 2 := Wd(TOP, -1, [MoveWatch(1)])], map[], 1)
  }

  /** /b has descriptor 3; the root has these watches. */
  function Watching(ws: seq<Watch>): State {
    State(Kernel(A_AND_B, map[1 := 1, 0 := 2, 2 := 3], HOMES, 3, 4, []),
          map[1 := AT_A, 2 := Wd(TOP, -1, ws), 3 := AT_B], map[], 2)
  }

  /** /a is gone. */
  function Without(table: Table, queue: seq<Event>): State {
    State(Kernel(ONLY_B, map[0 := 2, 2 := 3], HOMES, 3, 4, queue), table, map[], 2)
  }

  /** The move watch for a directory in the root. */
  lemma MovesAtRoot(s: State, p: Path, wd: int)
    requires |p| == 1 && TOP in s.kernel.dirs && s.kernel.dirs[TOP] in s.kernel.wds
    requires s.kernel.wds[s.kernel.dirs[TOP]] == 2 && 2 in s.table && s.table[2].parentWd == INOTIFY_ROOT
    ensures WatchAbove(s, p, wd, true) == (s.(table := s.table[2 := AppendWatch(s.table[2], MoveWatch(wd))]), 2)
  {
    assert p[..0] == TOP;
    assert s.kernel.AddWatch(TOP) == (s.kernel, 2);
    var s1 := s.(table := s.table[2 := AppendWatch(s.table[2], MoveWatch(wd))]);
    assert s.table[2].(parentWd := INOTIFY_ROOT) == s.table[2];
    assert AddMoveWatch(s, TOP, wd, INOTIFY_ROOT) == (s1, 2);
    assert WatchPathForMoves(s1, p, wd, 1, 2) == (s1, 2);
  }

  lemma FirstRequest()
    ensures MonitorRequest(TwoDirectories(), EA, []) == OnlyA()
  {
    var s0 := TwoDirectories();
    var (k, wd) := s0.kernel.AddWatch(A);
    assert wd == 1 && k.wds == map[1 := 1] && k.home == map[1 := A];
    var s1 := s0.(kernel := k);
    assert A[..0] == TOP;
    var (s2, c) := AddMoveWatch(s1, TOP, 1, INOTIFY_ROOT);
    assert c == 2 && s2.kernel.wds == map[1 := 1, 0 := 2] && s2.kernel.home == map[1 := A, 2 := TOP];
    assert [] + [MoveWatch(1)] == [MoveWatch(1)];
    assert s2.table == map[2 := Wd(TOP, -1, [MoveWatch(1)])];
    assert WatchPathForMoves(s2, A, 1, 1, 2) == (s2, 2);
    assert WatchAbove(s1, A, 1, true) == (s2, 2);
    assert [] + AT_A.watches == AT_A.watches;
    assert Install(s2, A, EA, A, true, None, false, 1, 2) == OnlyA();
  }

  lemma SecondRequest()
    ensures MonitorRequest(OnlyA(), EB, []) == Watching([MoveWatch(1), MoveWatch(3)])
  {
    var (k, wd) := OnlyA().kernel.AddWatch(B);
    assert wd == 3 && k.wds == map[1 := 1, 0 := 2, 2 := 3] && k.home == HOMES;
    var s1 := OnlyA().(kernel := k);
    MovesAtRoot(s1, B, 3);
    hide WatchAbove;
    assert [MoveWatch(1)] + [MoveWatch(3)] == [MoveWatch(1), MoveWatch(3)];
    assert [] + AT_B.watches == AT_B.watches;
    var s2 := s1.(table := map[1 := AT_A, 2 := Wd(TOP, -1, [MoveWatch(1), MoveWatch(3)])]);
    assert s1.table[2 := Wd(TOP, -1, [MoveWatch(1), MoveWatch(3)])] == s2.table;
    assert WatchAbove(s1, B, 3, true) == (s2, 2);
    assert Install(s2, B, EB, B, true, None, false, 3, 2) == Watching([MoveWatch(1), MoveWatch(3)]);
  }

  /** The directory is watched already, yet the root gets another move watch for it. */
  lemma RequestedAgain()
    ensures MonitorRequest(Watching([MoveWatch(1), MoveWatch(3)]), EA, []) ==
            Watching([MoveWatch(1), MoveWatch(3), MoveWatch(1)])
  {
    var s0 := Watching([MoveWatch(1), MoveWatch(3)]);
    assert s0.kernel.AddWatch(A) == (s0.kernel, 1);
    MovesAtRoot(s0, A, 1);
    hide WatchAbove;
    assert [MoveWatch(1), MoveWatch(3)] + [MoveWatch(1)] == [MoveWatch(1), MoveWatch(3), MoveWatch(1)];
    var s1 := Watching([MoveWatch(1), MoveWatch(3), MoveWatch(1)]);
    assert s0.table[2 := Wd(TOP, -1, [MoveWatch(1), MoveWatch(3), MoveWatch(1)])] == s1.table;
    assert WatchAbove(s0, A, 1, true) == (s1, 2);
    assert Matches(RegularFor(A), AT_A.watches[0]);
    assert FirstIndex(AT_A.watches, RegularFor(A)) == 0;
    assert Install(s1, A, EA, A, true, None, true, 1, 2) == s1;
  }

  lemma DeletesA()
    ensures var st := Watching([MoveWatch(1), MoveWatch(3), MoveWatch(1)]);
            && CanRmdir(st.kernel, A)
            && st.(kernel := Rmdir(st.kernel, A, true)) ==
               Without(st.table, [DeleteSelfEvent(1), IgnoredEvent(1), DELETED])
  {
    var st := Watching([MoveWatch(1), MoveWatch(3), MoveWatch(1)]);
    var k := st.kernel;
    assert Parent(A) == TOP && LastName(A) == "a";
    assert WatchOf(k, TOP) == 2 && WatchOf(k, A) == 1;
    MapsWithoutA();
    assert [] + ([DeleteSelfEvent(1), IgnoredEvent(1)] + [DELETED]) == [DeleteSelfEvent(1), IgnoredEvent(1), DELETED];
  }

  lemma MapsWithoutA()
    ensures A_AND_B - {A} == ONLY_B && map[1 := 1, 0 := 2, 2 := 3] - {1} == map[0 := 2, 2 := 3]
  {
    assert (A_AND_B - {A}).Keys == {TOP, B};
  }

  lemma DeletionHandled(t: Table)
    requires t == Watching([MoveWatch(1), MoveWatch(3), MoveWatch(1)]).table
    ensures HandleEvent(Without(t, [DeleteSelfEvent(1), IgnoredEvent(1), DELETED]), [], 0) ==
            Without(t, [IgnoredEvent(1), DELETED])
  {
    var queue := [DeleteSelfEvent(1), IgnoredEvent(1), DELETED];
    assert queue[1..] == [IgnoredEvent(1), DELETED];
    DeletedAlone(Without(t, queue), AT_A.watches[0]);
  }

  const LEFT: Table := map[2 := Wd(TOP, -1, [MoveWatch(1), MoveWatch(3)]), 3 := AT_B]

  lemma SweptAtRoot(st: State)
    requires st.table == Watching([MoveWatch(1), MoveWatch(3), MoveWatch(1)]).table
    ensures RemoveWatchMoves(st, 1) == st.(table := Watching([MoveWatch(1), MoveWatch(3)]).table)
  {
    assert Chain(st.table, 2, st.table.Keys - {1}) == [2];
    assert Ancestors(st.table, 1) == [2];
    hide Ancestors;
    SweepOfThree(MoveWatch(1), MoveWatch(3));
    hide Sweep;
    assert [2][1..] == [];
    assert SweepEntry(st, 2, 1) == st.(table := Watching([MoveWatch(1), MoveWatch(3)]).table);
  }

  lemma ForgetsA(st: State)
    requires st.table == Watching([MoveWatch(1), MoveWatch(3), MoveWatch(1)]).table && st.descendants == map[]
    ensures Forget(st, 1) == st.(table := LEFT)
  {
    SweptAtRoot(st);
    hide RemoveWatchMoves;
    assert AT_A.watches[1..] == [];
    assert DescendantsOf(AT_A.watches, st.descendants) == [];
    LeftTable();
  }

  lemma LeftTable()
    ensures Watching([MoveWatch(1), MoveWatch(3)]).table - {1} == LEFT
  {
    var t := Watching([MoveWatch(1), MoveWatch(3)]).table;
    assert (t - {1}).Keys == {2, 3};
  }

  lemma ForgottenA(t: Table)
    requires t == Watching([MoveWatch(1), MoveWatch(3), MoveWatch(1)]).table
    ensures HandleEvent(Without(t, [IgnoredEvent(1), DELETED]), [], 0) == Without(LEFT, [DELETED])
  {
    hide HandleEvent, Forget;
    var st := Without(t, [IgnoredEvent(1), DELETED]);
    assert [IgnoredEvent(1), DELETED][1..] == [DELETED];
    IgnoredHandled(st, 1);
    assert Dequeued(st) == Without(t, [DELETED]);
    ForgetsA(Dequeued(st));
  }

  lemma LastHandled()
    ensures HandleEvent(Without(LEFT, [DELETED]), [], 0) == Without(LEFT, [])
  {
    assert [DELETED][1..] == [];
    var ws := LEFT[2].watches;
    assert ws[..1] == [MoveWatch(1)] && [MoveWatch(1)][..0] == [];
    assert BestMatch(ws, TOP + ["a"]).None?;
  }

  function RepeatedRun(): seq<State> {
    var t := Watching([MoveWatch(1), MoveWatch(3), MoveWatch(1)]).table;
    [TwoDirectories(),
     OnlyA(),
     Watching([MoveWatch(1), MoveWatch(3)]),
     Watching([MoveWatch(1), MoveWatch(3), MoveWatch(1)]),
     Without(t, [DeleteSelfEvent(1), IgnoredEvent(1), DELETED]),
     Without(t, [IgnoredEvent(1), DELETED]),
     Without(LEFT, [DELETED]),
     Without(LEFT, [])]
  }

  lemma BothWellFormed(st: State)
    requires st == TwoDirectories() || st == Watching([MoveWatch(1), MoveWatch(3), MoveWatch(1)])
    ensures st.kernel.WellFormed()
  {
    assert Parent(A) == TOP && Parent(B) == TOP;
    assert forall p :: p in A_AND_B <==> p == TOP || p == A || p == B;
    assert st.kernel.dirs == A_AND_B;
    assert st.kernel.wds == map[] || st.kernel.wds == map[1 := 1, 0 := 2, 2 := 3];
  }

  ghost predicate Handled(st: State, st': State) {
    [] in st.kernel.dirs && st.kernel.queue != [] && st' == HandleEvent(st, [], 0)
  }

  lemma RepeatedHandles(i: nat)
    requires 4 <= i < 7
    ensures Handled(RepeatedRun()[i], RepeatedRun()[i + 1])
  {
    hide HandleEvent;
    var t := Watching([MoveWatch(1), MoveWatch(3), MoveWatch(1)]).table;
    if i == 4 {
      DeletionHandled(t);
    } else if i == 5 {
      ForgottenA(t);
    } else {
      LastHandled();
    }
  }

  lemma RepeatedSteps(i: nat)
    requires i < 7
    ensures Step(RepeatedRun()[i], RepeatedRun()[i + 1])
  {
    hide HandleEvent, MonitorRequest, EnvironmentStep;
    var run := RepeatedRun();
    if i == 0 {
      FirstRequest();
      assert run[1] == MonitorRequest(run[0], EA, []);
    } else if i == 1 {
      SecondRequest();
      assert run[2] == MonitorRequest(run[1], EB, []);
    } else if i == 2 {
      RequestedAgain();
      assert run[3] == MonitorRequest(run[2], EA, []);
    } else if i == 3 {
      BothWellFormed(run[3]);
      DeletesA();
      RmdirIsAStep(run[3], A, true);
    } else {
      RepeatedHandles(i);
    }
  }

  ghost predicate AsRequested(run: seq<State>) {
    && |run| == 8 && Behaviour(run)
    && [] in run[1].kernel.dirs && [] in run[2].kernel.dirs
    && run[1] == MonitorRequest(run[0], EA, []) && run[2] == MonitorRequest(run[1], EB, [])
    && run[3] == MonitorRequest(run[2], EA, [])
    && CanRmdir(run[3].kernel, A) && run[4] == run[3].(kernel := Rmdir(run[3].kernel, A, true))
  }

  lemma RepeatedAsRequested()
    ensures AsRequested(RepeatedRun())
  {
    hide Step, MonitorRequest, CanRmdir, Rmdir, Kernel.WellFormed;
    var run := RepeatedRun();
    BothWellFormed(run[0]);
    forall i | 0 <= i < |run| - 1 ensures Step(run[i], run[i + 1]) { RepeatedSteps(i); }
    assert Behaviour(run);
    hide Behaviour;
    FirstRequest();
    SecondRequest();
    RequestedAgain();
    DeletesA();
  }

  /** One location is requested, another one, and the first one again: the root has two move watches for it
      with another between them. Its directory is deleted and every event handled, and the sweep has left a
      move watch for a descriptor that is neither live nor in the table. */
  lemma MoveWatchOutlives()
    ensures AsRequested(RepeatedRun())
    ensures forall i :: 4 <= i < 7 ==> Handled(RepeatedRun()[i], RepeatedRun()[i + 1])
    ensures var st := RepeatedRun()[7];
            && st.kernel.queue == [] && 1 !in st.table && !st.kernel.Live(1)
            && 2 in st.table && MoveWatch(1) in st.table[2].watches
  {
    hide AsRequested, Handled;
    RepeatedAsRequested();
    forall i | 4 <= i < 7 ensures Handled(RepeatedRun()[i], RepeatedRun()[i + 1]) { RepeatedHandles(i); }
    assert RepeatedRun()[7].table[2].watches[0] == MoveWatch(1);
  }
}
