/**
 A run of the watch manager that ends badly: two renames after which a persistent directory is
 forgotten.
 */
module WatchRuns {
  import opened Wrappers
  import opened InotifyKernel
  import opened WatchTable
  import opened WatchInvariant
  import opened WatchEffects
  import opened WatchCleanup
  import opened WatchSteps

  // ----- the tree /m/x and a persistent recursive directory /m -----

  const TOP: Path := []
  const M: Path := ["m"]
  const MX: Path := ["m", "x"]
  const Z: Path := ["z"]
  const D := Adir(M, true, false, true)
  const AT_M := AutoscanWatch(0, true, D, M, None)
  const AT_MX := AutoscanWatch(1, false, D, M, None)
  const TREE: map<Path, Ino> := map[TOP := 0, M := 1, MX := 2]
  const HOMES: map<int, Path> := map[1 := M, 2 := TOP, 3 := MX]

  function Start(): State {
    State(Kernel(TREE, map[], map[], 3, 1, []), map[], map[], 0)
  }

  /** /m has descriptor 1, the root 2 and /m/x 3. */
  function Monitored(): State {
    State(Kernel(TREE, map[1 := 1, 0 := 2, 2 := 3], HOMES, 3, 4, []),
          map[1 := Wd(M, 2, [AT_M]), 2 := Wd(TOP, -1, [MoveWatch(1)]), 3 := Wd(MX, -2, [AT_MX])],
          map[0 := [3]], 2)
  }

  function HalfMonitored(): State {
    State(Kernel(TREE, map[1 := 1, 0 := 2], map[1 := M, 2 := TOP], 3, 3, []),
          map[1 := Wd(M, 2, [AT_M]), 2 := Wd(TOP, -1, [MoveWatch(1)])],
          map[], 1)
  }

  lemma StartMonitored()
    ensures Start().kernel.WellFormed() && MonitorRequest(Start(), D, [MX]) == Monitored()
  {
    assert Parent(M) == TOP && Parent(MX) == M;
    FirstDirectory();
    SecondDirectory();
    assert [MX][1..] == [];
    hide MonitorExisting;
    assert MonitorEach(Monitored(), [], D, M) == Monitored();
    assert MonitorDirectory(HalfMonitored(), MX, D, M, false, None) == Monitored();
    assert MonitorEach(HalfMonitored(), [MX], D, M) == Monitored();
  }

  lemma FirstDirectory()
    ensures MonitorExisting(Start(), M, D, M, true, None) == HalfMonitored()
  {
    var s0 := Start();
    var (k, wd) := s0.kernel.AddWatch(M);
    assert wd == 1 && k.wds == map[1 := 1] && k.home == map[1 := M];
    var s1 := s0.(kernel := k);
    assert M[..0] == TOP;
    var (s2, c) := AddMoveWatch(s1, TOP, 1, INOTIFY_ROOT);
    assert c == 2 && s2.kernel.wds == map[1 := 1, 0 := 2] && s2.kernel.home == map[1 := M, 2 := TOP];
    assert [] + [MoveWatch(1)] == [MoveWatch(1)];
    assert s2.table == map[2 := Wd(TOP, -1, [MoveWatch(1)])];
    assert WatchPathForMoves(s2, M, 1, 1, 2) == (s2, 2);
    assert WatchAbove(s1, M, 1, true) == (s2, 2);
    assert [] + [AT_M] == [AT_M];
    assert Install(s2, M, D, M, true, None, false, 1, 2) == HalfMonitored();
  }

  lemma SecondDirectory()
    ensures MonitorExisting(HalfMonitored(), MX, D, M, false, None) == Monitored()
  {
    var s0 := HalfMonitored();
    var (k, wd) := s0.kernel.AddWatch(MX);
    assert wd == 3 && k.wds == map[1 := 1, 0 := 2, 2 := 3] && k.home == HOMES;
    var s1 := s0.(kernel := k);
    assert [] + [AT_MX] == [AT_MX];
    var s2 := s1.(table := s1.table[3 := Wd(MX, -2, [AT_MX])], nextId := 2);
    assert s2.kernel.AddWatch(M) == (k, 1);
    assert Matches(RegularFor(M), [AT_M][0]);
    assert FirstIndex([AT_M], RegularFor(M)) == 0;
    assert [] + [3] == [3];
    assert s2.descendants[0 := [3]] == map[0 := [3]];
    assert AddDescendant(s2, 1, 3, D) == Monitored();
    assert Install(s1, MX, D, M, false, None, false, 3, -2) == Monitored();
  }

  // ----- two renames -----

  const RENAMED: map<Path, Ino> := map[TOP := 0, Z := 1, M := 2]
  const OUT := Event(2, MovedFrom, true, "m")
  const IN := Event(2, MovedTo, true, "z")
  const SELF := Event(1, MoveSelf, true, "")
  const OUT_AGAIN := Event(1, MovedFrom, true, "x")
  const IN_AGAIN := Event(2, MovedTo, true, "m")
  const SELF_AGAIN := Event(3, MoveSelf, true, "")

  /** The renames have happened: /m to /z, then /z/x to /m. */
  function Renamed(wds: map<Ino, int>, table: Table, nextId: nat, queue: seq<Event>): State {
    State(Kernel(RENAMED, wds, HOMES, 3, 4, queue), table, map[0 := [3]], nextId)
  }

  function AfterRenames(queue: seq<Event>): State {
    Renamed(Monitored().kernel.wds, Monitored().table, 2, queue)
  }

  /** After IN_MOVE_SELF of the directory that was /m. */
  function Rewatched(queue: seq<Event>): State {
    Renamed(map[0 := 2, 2 := 3],
            map[1 := Wd(M, 2, [AT_M]), 2 := Wd(TOP, -1, [MoveWatch(1), MoveWatch(3)]), 3 := Wd(MX, 2, [AT_MX])],
            3, queue)
  }

  lemma RenamedWellFormed(queue: seq<Event>)
    ensures AfterRenames(queue).kernel.WellFormed()
  {
    var k := AfterRenames(queue).kernel;
    assert k.dirs == RENAMED && k.wds == map[1 := 1, 0 := 2, 2 := 3] && k.nextIno == 3 && k.nextWd == 4;
    hide AfterRenames, Monitored;
    RenamedTree();
    ThreeDescriptors(k.wds);
    assert forall p :: p in k.dirs ==> k.dirs[p] < 3;
  }

  lemma ThreeDescriptors(wds: map<Ino, int>)
    requires wds == map[1 := 1, 0 := 2, 2 := 3]
    ensures forall i :: i in wds ==> i < 3 && 1 <= wds[i] < 4
    ensures forall i, j :: i in wds && j in wds && wds[i] == wds[j] ==> i == j
  {
  }

  lemma RenamedTree()
    ensures TOP in RENAMED && forall p :: p in RENAMED && p != [] ==> Parent(p) in RENAMED
    ensures forall p, q :: p in RENAMED && q in RENAMED && RENAMED[p] == RENAMED[q] ==> p == q
  {
    assert Parent(M) == TOP && Parent(Z) == TOP;
    assert forall p :: p in RENAMED <==> p == TOP || p == M || p == Z;
  }

  lemma RenamesAreAStep()
    ensures Step(Monitored(), AfterRenames([OUT, IN, SELF, OUT_AGAIN, IN_AGAIN, SELF_AGAIN]))
  {
    var queue := [OUT, IN, SELF, OUT_AGAIN, IN_AGAIN, SELF_AGAIN];
    var k, k' := Monitored().kernel, AfterRenames(queue).kernel;
    RenamedWellFormed(queue);
    hide Kernel.WellFormed;
    forall x | k.Live(x) ensures k'.Live(x) {
      var i :| i in k.wds && k.wds[i] == x;
      assert i in k'.wds && k'.wds[i] == x;
    }
    assert EnvironmentStep(k, k');
  }

  lemma SelfHandled(rest: seq<Event>)
    ensures HandleEvent(AfterRenames([SELF] + rest), [], 1) == Rewatched(rest + [IgnoredEvent(1)])
  {
    var st := AfterRenames([SELF] + rest);
    assert ([SELF] + rest)[1..] == rest;
    MovedAlone(st, AT_M);
    hide HandleEvent, HandleContent;
    assert Dequeued(st) == AfterRenames(rest);
    SelfContent(rest);
  }

  lemma SelfContent(rest: seq<Event>)
    ensures HandleContent(AfterRenames(rest), SELF, AT_M, M, []) == Rewatched(rest + [IgnoredEvent(1)])
  {
    hide MonitorNonexisting;
    var s := AfterRenames(rest);
    var k := s.kernel.RemoveWatch(1);
    assert 1 in s.kernel.wds && s.kernel.wds[1] == 1;
    assert k.wds == map[0 := 2, 2 := 3] && k.queue == rest + [IgnoredEvent(1)];
    assert Matches(AnyStartPoint, [AT_M][0]);
    assert FirstIndex([AT_M], AnyStartPoint) == 0;
    MonitoredAgain(s.(kernel := k));
  }

  lemma MonitoredAgain(s: State)
    requires s == Renamed(map[0 := 2, 2 := 3], Monitored().table, 2, s.kernel.queue)
    ensures MonitorNonexisting(s, M, D, M) == Rewatched(s.kernel.queue)
  {
    var s0 := s.(nextId := 3);
    assert M[..1] == M;
    assert Deepest(s0.kernel.dirs, M) == 1;
    assert s0.kernel.AddWatch(M) == (s0.kernel, 3);
    assert M[..0] == TOP;
    var (s1, c) := AddMoveWatch(s0, TOP, 3, INOTIFY_ROOT);
    assert c == 2 && s1.kernel == s0.kernel;
    assert [MoveWatch(1)] + [MoveWatch(3)] == [MoveWatch(1), MoveWatch(3)];
    assert s1.table[2] == Wd(TOP, -1, [MoveWatch(1), MoveWatch(3)]);
    assert WatchPathForMoves(s1, M, 3, 1, 2) == (s1, 2);
    assert WatchAbove(s0, M, 3, true) == (s1, 2);
    assert Matches(RegularFor(M), [AT_MX][0]);
    assert FirstIndex([AT_MX], RegularFor(M)) == 0;
    assert Install(s1, M, D, M, true, None, true, 3, 2) == Rewatched(s.kernel.queue);
  }

  /** After IN_MOVE_SELF of the directory that was /m/x: it has no start point to go by. */
  function LetGo(queue: seq<Event>): State {
    Renamed(map[0 := 2], Rewatched([]).table, 3, queue)
  }

  lemma SelfAgainHandled(rest: seq<Event>)
    ensures HandleEvent(Rewatched([SELF_AGAIN] + rest), [], 1) == LetGo(rest + [IgnoredEvent(3)])
  {
    var st := Rewatched([SELF_AGAIN] + rest);
    assert ([SELF_AGAIN] + rest)[1..] == rest;
    MovedAlone(st, AT_MX);
    hide HandleEvent, HandleContent;
    assert Dequeued(st) == Rewatched(rest);
    SelfAgainContent(rest);
  }

  lemma SelfAgainContent(rest: seq<Event>)
    ensures HandleContent(Rewatched(rest), SELF_AGAIN, AT_MX, MX, []) == LetGo(rest + [IgnoredEvent(3)])
  {
    hide MonitorNonexisting;
    var s := Rewatched(rest);
    var k := s.kernel.RemoveWatch(3);
    assert 2 in s.kernel.wds && s.kernel.wds[2] == 3;
    assert k.wds == map[0 := 2] && k.queue == rest + [IgnoredEvent(3)];
    assert FirstIndex([AT_MX], AnyStartPoint) == 1 by { assert [AT_MX][1..] == []; }
  }

  const ROOT_ONLY: Table := map[2 := Wd(TOP, -1, [MoveWatch(3)])]

  function FirstForgotten(queue: seq<Event>): State {
    Renamed(map[0 := 2], map[2 := Wd(TOP, -1, [MoveWatch(3)]), 3 := Wd(MX, 2, [AT_MX])], 3, queue)
  }

  lemma FirstIgnored(rest: seq<Event>)
    ensures HandleEvent(LetGo([IgnoredEvent(1)] + rest), [], 0) == FirstForgotten(rest)
  {
    var st := LetGo([IgnoredEvent(1)] + rest);
    assert ([IgnoredEvent(1)] + rest)[1..] == rest;
    assert LetGo(rest) == Dequeued(st);
    hide HandleEvent, Forget, LetGo;
    FirstForgets(rest);
  }

  lemma FirstForgets(rest: seq<Event>)
    ensures Forget(LetGo(rest), 1) == FirstForgotten(rest)
  {
    hide RemoveWatchMoves, RemoveDescendants;
    FirstSwept(rest);
    FirstDescendants(rest);
    var e2, e3 := Wd(TOP, -1, [MoveWatch(3)]), Wd(MX, 2, [AT_MX]);
    var t := SweptOnce(rest).table;
    assert t.Keys == {1, 2, 3} && t[2] == e2 && t[3] == e3;
    assert (t - {1}).Keys == {2, 3};
    assert t - {1} == map[2 := e2, 3 := e3];
  }

  function SweptOnce(queue: seq<Event>): State {
    LetGo(queue).(table := LetGo(queue).table[2 := Wd(TOP, -1, [MoveWatch(3)])])
  }

  lemma FirstSwept(rest: seq<Event>)
    ensures RemoveWatchMoves(LetGo(rest), 1) == SweptOnce(rest)
  {
    var s := LetGo(rest);
    assert Chain(s.table, 2, s.table.Keys - {1}) == [2];
    assert Ancestors(s.table, 1) == [2];
    var ws := [MoveWatch(1), MoveWatch(3)];
    assert RemoveUnordered(ws, 0) == [MoveWatch(3)];
    assert Sweep([MoveWatch(3)], MoveWatch(1), 1) == [MoveWatch(3)];
    assert Sweep(ws, MoveWatch(1), 0) == [MoveWatch(3)];
    assert [2][1..] == [];
    assert SweepEntry(s, 2, 1) == SweptOnce(rest);
  }

  lemma FirstDescendants(rest: seq<Event>)
    ensures RemoveDescendants(SweptOnce(rest), 1) == SweptOnce(rest)
  {
    var s := SweptOnce(rest);
    assert [AT_M][1..] == [] && [3][1..] == [];
    assert DescendantsOf([AT_M], s.descendants) == [3];
    assert !s.kernel.Live(3);
    assert RemoveWatches(s.kernel, [3]) == s.kernel;
  }

  lemma SecondIgnored()
    ensures HandleEvent(FirstForgotten([IgnoredEvent(3)]), [], 0) == Renamed(map[], ROOT_ONLY, 3, [IgnoredEvent(2)])
  {
    var st := FirstForgotten([IgnoredEvent(3)]);
    assert [IgnoredEvent(3)][1..] == [];
    assert FirstForgotten([]) == Dequeued(st);
    hide HandleEvent, Forget;
    SecondForgets();
  }

  lemma SecondForgets()
    ensures Forget(FirstForgotten([]), 3) == Renamed(map[], ROOT_ONLY, 3, [IgnoredEvent(2)])
  {
    var s := FirstForgotten([]);
    SecondSwept();
    hide RemoveWatchMoves;
    assert [AT_MX][1..] == [];
    assert DescendantsOf([AT_MX], s.descendants) == [];
    assert (s.table - {3}).Keys == {2};
    assert s.table - {3} == ROOT_ONLY;
  }

  lemma SecondSwept()
    ensures RemoveWatchMoves(FirstForgotten([]), 3) == Renamed(map[], FirstForgotten([]).table, 3, [IgnoredEvent(2)])
  {
    var s := FirstForgotten([]);
    assert Chain(s.table, 2, s.table.Keys - {3}) == [2];
    assert Ancestors(s.table, 3) == [2];
    assert [2][1..] == [];
    var s1 := SweepEntry(s, 2, 3);
    assert 0 in s.kernel.wds && s.kernel.wds[0] == 2;
    assert s1.kernel.wds == map[] && s1.kernel.queue == [IgnoredEvent(2)];
  }

  lemma LastIgnored()
    ensures HandleEvent(Renamed(map[], ROOT_ONLY, 3, [IgnoredEvent(2)]), [], 0) == Renamed(map[], map[], 3, [])
  {
    var st := Renamed(map[], ROOT_ONLY, 3, [IgnoredEvent(2)]);
    hide HandleEvent;
    assert [IgnoredEvent(2)][1..] == [];
    assert Ancestors(ROOT_ONLY, 2) == [];
    assert [MoveWatch(3)][1..] == [];
    assert DescendantsOf([MoveWatch(3)], st.descendants) == [];
    assert ROOT_ONLY - {2} == map[];
  }

  /** The run: a persistent directory is monitored, two renames put another directory in its place, and
      the events are handled. */
  function RenameRun(): seq<State> {
    [Start(), Monitored(),
     AfterRenames([OUT, IN, SELF, OUT_AGAIN, IN_AGAIN, SELF_AGAIN]),
     AfterRenames([IN, SELF, OUT_AGAIN, IN_AGAIN, SELF_AGAIN]),
     AfterRenames([SELF, OUT_AGAIN, IN_AGAIN, SELF_AGAIN]),
     Rewatched([OUT_AGAIN, IN_AGAIN, SELF_AGAIN, IgnoredEvent(1)]),
     Rewatched([IN_AGAIN, SELF_AGAIN, IgnoredEvent(1)]),
     Rewatched([SELF_AGAIN, IgnoredEvent(1)]),
     LetGo([IgnoredEvent(1), IgnoredEvent(3)]),
     FirstForgotten([IgnoredEvent(3)]),
     Renamed(map[], ROOT_ONLY, 3, [IgnoredEvent(2)]),
     Renamed(map[], map[], 3, [])]
  }

  /** The later states, each from the one before by handling an event to the end. */
  ghost predicate HandledNext(st: State, st': State) {
    [] in st.kernel.dirs && st.kernel.queue != [] && exists steps :: st' == HandleEvent(st, [], steps)
  }

  lemma QuietBefore(i: nat)
    requires i == 2 || i == 3
    ensures HandledNext(RenameRun()[i], RenameRun()[i + 1])
  {
    hide HandleEvent;
    var r := RenameRun();
    QuietMove(r[i]);
    assert r[i + 1].kernel.queue == r[i].kernel.queue[1..];
  }

  lemma QuietAfter(i: nat)
    requires i == 5 || i == 6
    ensures HandledNext(RenameRun()[i], RenameRun()[i + 1])
  {
    hide HandleEvent;
    var r := RenameRun();
    QuietMove(r[i]);
    assert r[i + 1].kernel.queue == r[i].kernel.queue[1..];
  }

  lemma RenameRunHandles(i: nat)
    requires 2 <= i < 11
    ensures HandledNext(RenameRun()[i], RenameRun()[i + 1])
  {
    hide HandleEvent;
    var r := RenameRun();
    if i == 2 || i == 3 {
      QuietBefore(i);
    } else if i == 5 || i == 6 {
      QuietAfter(i);
    } else if i == 4 {
      SelfHandled([OUT_AGAIN, IN_AGAIN, SELF_AGAIN]);
      assert [SELF] + [OUT_AGAIN, IN_AGAIN, SELF_AGAIN] == r[4].kernel.queue;
      assert [OUT_AGAIN, IN_AGAIN, SELF_AGAIN] + [IgnoredEvent(1)] == r[5].kernel.queue;
    } else if i == 7 {
      SelfAgainHandled([IgnoredEvent(1)]);
      assert [SELF_AGAIN] + [IgnoredEvent(1)] == r[7].kernel.queue;
      assert [IgnoredEvent(1)] + [IgnoredEvent(3)] == r[8].kernel.queue;
    } else if i == 8 {
      FirstIgnored([IgnoredEvent(3)]);
      assert [IgnoredEvent(1)] + [IgnoredEvent(3)] == r[8].kernel.queue;
    } else if i == 9 {
      SecondIgnored();
    } else {
      LastIgnored();
    }
  }

  lemma RenameRunBehaves()
    ensures Behaviour(RenameRun())
  {
    var run := RenameRun();
    StartMonitored();
    hide HandleEvent, MonitorRequest, EnvironmentStep;
    forall i | 0 <= i < |run| - 1 ensures Step(run[i], run[i + 1]) {
      if i >= 2 { RenameRunHandles(i); } else { RenameRunBegins(i); }
    }
  }

  lemma RenameRunBegins(i: nat)
    requires i < 2
    ensures Step(RenameRun()[i], RenameRun()[i + 1])
  {
    hide HandleEvent, MonitorRequest, EnvironmentStep, Monitored;
    if i == 0 {
      StartMonitored();
      assert RenameRun()[1] == MonitorRequest(RenameRun()[0], D, [MX]);
    } else {
      RenamesAreAStep();
    }
  }

  /** Renames can make a persistent directory be forgotten. Its whole path exists throughout. Handling
      IN_MOVE_SELF of the directory that was there leaves it watched, but not as a start point, and once
      the queue is drained nothing is left in the table. */
  lemma RenamesForget()
    ensures var run := RenameRun();
            && Behaviour(run) && run[1] == MonitorRequest(run[0], D, [MX]) && D.persistent
            && (forall i :: 2 <= i < |run| - 1 ==> HandledNext(run[i], run[i + 1]))
            && (forall i :: 0 <= i < |run| ==> D.location in run[i].kernel.dirs)
            && NoStartPoint(run[5])
            && run[|run| - 1].kernel.queue == [] && run[|run| - 1].table == map[]
  {
    var run := RenameRun();
    StartMonitored();
    RenameRunBehaves();
    hide Behaviour, HandleEvent, MonitorRequest, HandledNext, NoStartPoint;
    RenameRunKeeps(run);
    NoStartPointLeft();
  }

  lemma RenameRunKeeps(run: seq<State>)
    requires run == RenameRun()
    ensures forall i :: 2 <= i < |run| - 1 ==> HandledNext(run[i], run[i + 1])
    ensures forall i :: 0 <= i < |run| ==> D.location in run[i].kernel.dirs
  {
    hide HandledNext;
    forall i | 2 <= i < |run| - 1 ensures HandledNext(run[i], run[i + 1]) { RenameRunHandles(i); }
  }

  /** The whole path exists and is watched for its location, but not as a start point. */
  ghost predicate NoStartPoint(st: State) {
    var x := WatchOf(st.kernel, D.location);
    && D.location in st.kernel.dirs && x in st.table && st.kernel.Live(x)
    && HasRegular(st.table[x].watches, D.location) && !StartsAt(st.table[x].watches, D.location)
  }

  lemma NoStartPointLeft()
    ensures NoStartPoint(RenameRun()[5])
  {
    var st := RenameRun()[5];
    assert 2 in st.kernel.wds && st.kernel.wds[2] == 3;
    assert Matches(RegularFor(M), [AT_MX][0]);
  }
}
