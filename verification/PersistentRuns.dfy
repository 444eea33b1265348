/**
 Persistent autoscan directories over whole histories: directories come and go without renames, their
 events are handled in order, and any directories are requested and given up in between. From its
 request on a persistent location stays covered exactly as long as every event is noticed, which can be
 told from the entry the event is for. Whenever the queue is drained, covered is watched. A location
 that is the only one ever requested is never forgotten, whatever happens.
 */
module PersistentRuns {
  import opened Wrappers
  import opened InotifyKernel
  import opened WatchTable
  import opened WatchInvariant
  import opened WatchEffects
  import opened WatchCleanup
  import opened TreeSteps
  import opened WatchKin
  import opened WatchPersistence

  // ----- histories -----

  datatype Act = TreeChange | Handling | Request(adir: Adir) | Release(adir: Adir)

  ghost predicate Takes(st: State, st': State, act: Act) {
    [] in st.kernel.dirs &&
    match act
    case TreeChange => st' == st.(kernel := st'.kernel) && TreeStep(st.kernel, st'.kernel)
    case Handling => exists below, steps :: BelowEvent(st, below) && st' == HandleEvent(st, below, steps)
    case Request(f) => exists below :: TreeOf(st, f, below) && st' == MonitorRequest(st, f, below)
    case Release(f) => exists below :: TreeOf(st, f, below) && st' == UnmonitorRequest(st, f, below)
  }

  /** For a recursive directory, below lists the directories inside it. */
  ghost predicate TreeOf(st: State, f: Adir, below: seq<Path>) {
    f.recursive ==> Listing(st.kernel.dirs, f.location, below)
  }

  ghost predicate History(run: seq<State>, acts: seq<Act>) {
    && |run| == |acts| + 1 && Initial(run[0]) && run[0].descendants == map[]
    && forall j :: 0 <= j < |acts| ==> Takes(run[j], run[j + 1], acts[j])
  }

  function Requested(acts: seq<Act>): set<Adir> {
    set act | act in acts && act.Request? :: act.adir
  }

  predicate ReleasesAt(act: Act, l: Path) {
    act.Release? && act.adir.location == l
  }

  predicate LendsAt(act: Act, l: Path) {
    act.Request? && act.adir.location == l && !act.adir.persistent
  }

  /** Whatever directory that is not persistent was requested for l before n has been given up before i. */
  ghost predicate OnlyPersistent(acts: seq<Act>, l: Path, i: nat, n: nat) {
    i <= n <= |acts| &&
    forall j :: 0 <= j < n && LendsAt(acts[j], l) ==> exists m :: j < m < i && ReleasesAt(acts[m], l)
  }

  /** From act i up to act n the location is held by persistent directories alone: requested at i, and not
      given up since. */
  ghost predicate Holding(acts: seq<Act>, l: Path, i: nat, n: nat) {
    && i < n <= |acts| && acts[i].Request? && acts[i].adir.location == l && OnlyPersistent(acts, l, i, n)
    && forall j :: i < j < n ==> !ReleasesAt(acts[j], l)
  }

  /** No recursive location around l is ever given up. */
  ghost predicate Sheltered(acts: seq<Act>, l: Path) {
    forall act :: act in acts && act.Release? ==> Releasable(Requested(acts), Stake(l, true, false), act.adir)
  }

  // ----- steps -----

  lemma TreeStepFits(st: State, st': State, ds: set<Adir>, q: Stake)
    requires Inv(st) && Base(st, ds, q) && Takes(st, st', TreeChange)
    ensures Inv(st') && Base(st', ds, q) && (Covered(st, q.location) ==> Covered(st', q.location))
  {
    TreeStepIsEnvironment(st.kernel, st'.kernel);
    hide OnlyFor, Kin, Covered;
    var k' := st'.kernel;
    if p :| CanMkdir(st.kernel, p) && k' == Mkdir(st.kernel, p) {
      MkdirCovers(st, ds, q, p, q.location);
    } else if p, selfFirst :| CanRmdir(st.kernel, p) && k' == Rmdir(st.kernel, p, selfFirst) {
      RmdirCovers(st, ds, q, p, selfFirst, q.location);
    } else {
      var ev :| FileEvent(ev) && st.kernel.Live(ev.wd) && k' == st.kernel.(queue := st.kernel.queue + [ev]);
      FileEventCovers(st, ds, q, ev, q.location);
    }
  }

  lemma HandlingFits(st: State, st': State, ds: set<Adir>, q: Stake)
    requires Inv(st) && Base(st, ds, q) && Takes(st, st', Handling)
    ensures Inv(st') && Base(st', ds, q) && (q.owned ==> (Covered(st', q.location) <==> Noticed(st, q.location)))
  {
    var below, steps :| BelowEvent(st, below) && st' == HandleEvent(st, below, steps);
    hide Inv, Base, Covered, Noticed, HandleEvent;
    HandleEventInv(st, below, steps);
    HandleCoversExactly(st, ds, q, below, steps);
  }

  lemma RequestFits(st: State, st': State, ds: set<Adir>, q: Stake, f: Adir)
    requires Inv(st) && Base(st, ds, q) && Takes(st, st', Request(f)) && f in ds
    requires q.owned && f.location == q.location ==> f.persistent
    ensures Inv(st') && Base(st', ds, q)
    ensures q.owned && (Covered(st, q.location) || f.location == q.location) ==> Covered(st', q.location)
  {
    var below :| TreeOf(st, f, below) && st' == MonitorRequest(st, f, below);
    if f.recursive { ListedBelow(st.kernel.dirs, f.location, below); }
    hide Agree, Base, Covered, MonitorDirectory, MonitorRecursive;
    MonitorRequestCovers(st, ds, q, f, below);
    MonitorDirectoryInv(st, f.location, f, f.location, true, None);
    MonitorRecursiveInv(st, f.location, f, f.location, true, below);
  }

  lemma ReleaseFits(st: State, st': State, ds: set<Adir>, q: Stake, f: Adir)
    requires Inv(st) && Base(st, ds, q) && Takes(st, st', Release(f)) && Releasable(ds, q, f)
    ensures Inv(st') && Base(st', ds, q)
    ensures f.location != q.location && Covered(st, q.location) ==> Covered(st', q.location)
    ensures f.location == q.location ==> OwnedAt(st'.kernel, st'.table, q.location)
  {
    var below :| TreeOf(st, f, below) && st' == UnmonitorRequest(st, f, below);
    hide Inv, Base, Covered, UnmonitorRequest, Releasable, OwnedAt;
    UnmonitorRequestInv(st, f, below);
    UnmonitorRequestCovers(st, ds, q, f, below, q.location);
    if f.location == q.location { ReleaseOwns(st, ds, q, f, below); }
  }

  lemma UnmonitorRequestInv(st: State, f: Adir, below: seq<Path>)
    requires Inv(st)
    ensures Inv(UnmonitorRequest(st, f, below))
  {
    UnmonitorDirectoryInv(st, f.location, f);
    UnmonitorEachInv(UnmonitorDirectory(st, f.location, f), below, f);
  }

  /** Once a location is given up, no live entry is its start point. */
  lemma ReleaseOwns(st: State, ds: set<Adir>, q: Stake, f: Adir, below: seq<Path>)
    requires Inv(st) && Base(st, ds, q) && Releasable(ds, q, f) && f.location == q.location
    ensures var r := UnmonitorRequest(st, f, below); OwnedAt(r.kernel, r.table, q.location)
  {
    var s := UnmonitorDirectory(st, f.location, f);
    UnmonitorBase(st, ds, q, f.location, f);
    UnmonitorDirectoryInv(st, f.location, f);
    DirectoryReleased(st, s, ds, q, f);
    hide UnmonitorDirectory, Inv, OnlyFor, OwnedAt;
    var q' := q.(owned := true);
    assert Releasable(ds, q', f);
    assert Base(s, ds, q') by { Upgraded(s, ds, q); }
    hide Releasable, Kin;
    if f.recursive { UnmonitorEachCovers(s, ds, q', below, f, q.location); }
    var r := UnmonitorRequest(st, f, below);
    assert Base(r, ds, q');
    Downgraded(r, ds, q');
  }

  lemma DirectoryReleased(st: State, s: State, ds: set<Adir>, q: Stake, f: Adir)
    requires Inv(st) && Base(st, ds, q) && Base(s, ds, q)
    requires s == UnmonitorDirectory(st, f.location, f) && f.location == q.location
    ensures OwnedAt(s.kernel, s.table, q.location)
  {
    var l := q.location;
    UnmonitorQueue(st, f.location, f);
    UnmonitorKeys(st, f.location, f);
    hide UnmonitorDirectory, Inv, Kin;
    forall x, w | Holds(s.table, x, w) && w.Regular() && w.startPoint && w.adir.location == l
      ensures !s.kernel.Live(x)
    {
      assert EntryFits(s.kernel, ds, x, s.table[x]) && EntryFits(st.kernel, ds, x, st.table[x]);
      assert WatchFits(ds, s.table[x].path, w) && Matches(RegularFor(l), w);
      assert HasRegular(s.table[x].watches, l);
      WatchedAtHome(st.kernel, x);
      UnmonitorAt(st, f.location, f, x);
    }
  }

  lemma WatchedAtHome(k: Kernel, x: int)
    requires AtHome(k) && x in k.home
    ensures k.Live(x) ==> WatchOf(k, k.home[x]) == x
  {
  }

  lemma UnmonitorKeys(st: State, p: Path, f: Adir)
    ensures UnmonitorDirectory(st, p, f).table.Keys == st.table.Keys
  {
  }

  lemma Upgraded(st: State, ds: set<Adir>, q: Stake)
    requires Base(st, ds, q) && OwnedAt(st.kernel, st.table, q.location)
    ensures Base(st, ds, q.(owned := true))
  {
    OtherStake(st, ds, q, q.(owned := true));
  }

  lemma Downgraded(st: State, ds: set<Adir>, q: Stake)
    requires Base(st, ds, q)
    ensures Base(st, ds, q.(owned := false))
    ensures q.owned ==> OwnedAt(st.kernel, st.table, q.location)
  {
    OtherStake(st, ds, q, q.(owned := false));
  }

  lemma OtherStake(st: State, ds: set<Adir>, q: Stake, q': Stake)
    requires Base(st, ds, q) && q'.location == q.location && q'.sheltered == q.sheltered
    requires q'.owned ==> OwnedAt(st.kernel, st.table, q.location)
    ensures Base(st, ds, q')
  {
    forall x, w, z | Registered(st.table, st.descendants, x, w, z)
      ensures KinFits(st.kernel, ds, q', st.table[x].path, x, w, z)
    {
      assert KinFits(st.kernel, ds, q, st.table[x].path, x, w, z);
    }
  }

  // ----- what every history keeps -----

  lemma {:induction false} HistoryFits(run: seq<State>, acts: seq<Act>, l: Path, sheltered: bool, n: nat)
    requires History(run, acts) && n <= |acts| && (sheltered ==> Sheltered(acts, l))
    ensures Inv(run[n]) && Base(run[n], Requested(acts), Stake(l, sheltered, OnlyPersistent(acts, l, n, n)))
  {
    if n == 0 {
      StartFits(run[0], Requested(acts), Stake(l, sheltered, OnlyPersistent(acts, l, 0, 0)));
    } else {
      hide Inv, Base, Takes, OnlyPersistent, Sheltered;
      HistoryFits(run, acts, l, sheltered, n - 1);
      HistoryNext(run, acts, l, sheltered, n - 1);
    }
  }

  lemma HistoryNext(run: seq<State>, acts: seq<Act>, l: Path, sheltered: bool, m: nat)
    requires History(run, acts) && m < |acts| && (sheltered ==> Sheltered(acts, l))
    requires Inv(run[m]) && Base(run[m], Requested(acts), Stake(l, sheltered, OnlyPersistent(acts, l, m, m)))
    ensures var after := OnlyPersistent(acts, l, m + 1, m + 1);
            Inv(run[m + 1]) && Base(run[m + 1], Requested(acts), Stake(l, sheltered, after))
  {
    hide Inv, Base, Takes, OnlyPersistent, Sheltered;
    ActTaken(run, acts, m);
    HistoryStep(run[m], run[m + 1], acts, l, sheltered, m);
  }

  lemma ActTaken(run: seq<State>, acts: seq<Act>, m: nat)
    requires History(run, acts) && m < |acts|
    ensures Takes(run[m], run[m + 1], acts[m])
  {
  }

  lemma StartFits(st: State, ds: set<Adir>, q: Stake)
    requires Initial(st) && st.descendants == map[]
    ensures Inv(st) && Base(st, ds, q)
  {
    var rank: int -> nat := x => 0;
    assert Ranked(st.table, rank);
  }

  lemma HistoryStep(st: State, st': State, acts: seq<Act>, l: Path, sheltered: bool, m: nat)
    requires m < |acts| && Takes(st, st', acts[m]) && (sheltered ==> Sheltered(acts, l))
    requires Inv(st) && Base(st, Requested(acts), Stake(l, sheltered, OnlyPersistent(acts, l, m, m)))
    ensures Inv(st') && Base(st', Requested(acts), Stake(l, sheltered, OnlyPersistent(acts, l, m + 1, m + 1)))
  {
    var ds, act := Requested(acts), acts[m];
    var before, after := OnlyPersistent(acts, l, m, m), OnlyPersistent(acts, l, m + 1, m + 1);
    var q := Stake(l, sheltered, before && after);
    if !after { Downgraded(st, ds, Stake(l, sheltered, before)); }
    if after && !ReleasesAt(act, l) { StaysPersistent(acts, l, m); }
    hide Inv, Base, OnlyPersistent;
    StepFits(st, st', acts, q, m);
    if after && !before { Upgraded(st', ds, q); }
  }

  lemma StaysPersistent(acts: seq<Act>, l: Path, m: nat)
    requires m < |acts| && OnlyPersistent(acts, l, m + 1, m + 1) && !ReleasesAt(acts[m], l)
    ensures OnlyPersistent(acts, l, m, m) && !LendsAt(acts[m], l)
  {
    forall j | 0 <= j < m && LendsAt(acts[j], l) ensures exists i :: j < i < m && ReleasesAt(acts[i], l) {
      var i :| j < i < m + 1 && ReleasesAt(acts[i], l);
    }
  }

  /** One act of a history, with what it does to the coverage of the location at stake. */
  lemma StepFits(st: State, st': State, acts: seq<Act>, q: Stake, m: nat)
    requires m < |acts| && Takes(st, st', acts[m]) && (q.sheltered ==> Sheltered(acts, q.location))
    requires Inv(st) && Base(st, Requested(acts), q) && (q.owned ==> !LendsAt(acts[m], q.location))
    ensures Inv(st') && Base(st', Requested(acts), q)
    ensures ReleasesAt(acts[m], q.location) ==> OwnedAt(st'.kernel, st'.table, q.location)
    ensures q.owned ==>
              match acts[m]
              case TreeChange => Covered(st, q.location) ==> Covered(st', q.location)
              case Handling => Covered(st', q.location) <==> Noticed(st, q.location)
              case Request(f) => Covered(st, q.location) || f.location == q.location ==> Covered(st', q.location)
              case Release(f) => f.location != q.location && Covered(st, q.location) ==> Covered(st', q.location)
  {
    var ds := Requested(acts);
    hide Inv, Base, Takes, Covered, Noticed, OwnedAt;
    match acts[m]
    case TreeChange => TreeStepFits(st, st', ds, q);
    case Handling => HandlingFits(st, st', ds, q);
    case Request(f) =>
      assert acts[m] in acts;
      RequestFits(st, st', ds, q, f);
    case Release(f) =>
      assert acts[m] in acts;
      ReleaseFits(st, st', ds, q, f);
  }

  // ----- coverage over a history -----

  lemma HoldingOwned(acts: seq<Act>, l: Path, i: nat, n: nat, m: nat)
    requires Holding(acts, l, i, n) && i <= m < n
    ensures OnlyPersistent(acts, l, m, m) && !LendsAt(acts[m], l)
  {
    forall j | 0 <= j < m && LendsAt(acts[j], l) ensures exists k :: j < k < m && ReleasesAt(acts[k], l) {
      var k :| j < k < i && ReleasesAt(acts[k], l);
    }
  }

  /** What act m does to the coverage of a location that is held. */
  lemma HeldStep(run: seq<State>, acts: seq<Act>, l: Path, i: nat, n: nat, m: nat)
    requires History(run, acts) && Holding(acts, l, i, n) && i <= m < n
    ensures m == i || (!acts[m].Handling? && Covered(run[m], l)) ==> Covered(run[m + 1], l)
    ensures acts[m].Handling? ==> (Covered(run[m + 1], l) <==> Noticed(run[m], l))
  {
    HoldingOwned(acts, l, i, n, m);
    hide Inv, Base, OnlyPersistent, Covered, Noticed, Takes, Sheltered, Holding;
    ActTaken(run, acts, m);
    HistoryFits(run, acts, l, false, m);
    hide History;
    HeldAct(run[m], run[m + 1], acts, l, i, n, m);
  }

  lemma HeldAct(st: State, st': State, acts: seq<Act>, l: Path, i: nat, n: nat, m: nat)
    requires Holding(acts, l, i, n) && i <= m < n && Takes(st, st', acts[m])
    requires Inv(st) && Base(st, Requested(acts), Stake(l, false, true))
    ensures m == i || (!acts[m].Handling? && Covered(st, l)) ==> Covered(st', l)
    ensures acts[m].Handling? ==> (Covered(st', l) <==> Noticed(st, l))
  {
    HoldingOwned(acts, l, i, n, m);
    assert m == i ==> acts[m].Request? && acts[m].adir.location == l;
    assert m > i ==> !ReleasesAt(acts[m], l);
    hide Inv, Base, Holding, Covered, Noticed, Takes, Sheltered, LendsAt, OwnedAt;
    StepFits(st, st', acts, Stake(l, false, true), m);
  }

  /** A location held by persistent directories is covered all the time exactly if every event handled is
      noticed. */
  lemma CoveredExactly(run: seq<State>, acts: seq<Act>, l: Path, i: nat, n: nat)
    requires History(run, acts) && Holding(acts, l, i, n)
    ensures (forall m :: i < m <= n ==> Covered(run[m], l)) <==>
            (forall m :: i < m < n && acts[m].Handling? ==> Noticed(run[m], l))
  {
    hide Covered, Noticed;
    if forall m :: i < m <= n ==> Covered(run[m], l) {
      forall m | i < m < n && acts[m].Handling? ensures Noticed(run[m], l) {
        HeldStep(run, acts, l, i, n, m);
        assert Covered(run[m + 1], l);
      }
    }
    if forall m :: i < m < n && acts[m].Handling? ==> Noticed(run[m], l) {
      forall m | i < m <= n ensures Covered(run[m], l) { NoticedCovers(run, acts, l, i, n, m); }
    }
  }

  lemma {:induction false} NoticedCovers(run: seq<State>, acts: seq<Act>, l: Path, i: nat, n: nat, m: nat)
    requires History(run, acts) && Holding(acts, l, i, n) && i < m <= n
    requires forall j :: i < j < n && acts[j].Handling? ==> Noticed(run[j], l)
    ensures Covered(run[m], l)
  {
    hide Covered, Noticed, History, Holding;
    if m - 1 > i { NoticedCovers(run, acts, l, i, n, m - 1); }
    HeldStep(run, acts, l, i, n, m - 1);
  }

  /** As long as every recheck reaches a watch that waits for the location, and no recursive location around it
      is given up, every event is noticed. */
  lemma {:induction false} ReachedCovers(run: seq<State>, acts: seq<Act>, l: Path, i: nat, n: nat, m: nat)
    requires History(run, acts) && Holding(acts, l, i, n) && Sheltered(acts, l) && i < m <= n
    requires AllReached(run, acts, l, i, n)
    ensures Covered(run[m], l)
  {
    hide Covered, History, Holding, AllReached, Noticed, Sheltered;
    if m - 1 > i {
      ReachedCovers(run, acts, l, i, n, m - 1);
      HeldIsNoticed(run, acts, l, i, n, m - 1);
    }
    HeldStep(run, acts, l, i, n, m - 1);
  }

  /** Every event between i and n that leads to a recheck in an entry that waits for l reaches a watch for it. */
  ghost predicate AllReached(run: seq<State>, acts: seq<Act>, l: Path, i: nat, n: nat)
    requires n <= |acts| < |run|
  {
    forall m :: i < m < n && acts[m].Handling? ==> ReachedAtHead(run[m], l)
  }

  lemma HeldIsNoticed(run: seq<State>, acts: seq<Act>, l: Path, i: nat, n: nat, m: nat)
    requires History(run, acts) && Holding(acts, l, i, n) && Sheltered(acts, l) && i < m < n
    requires Covered(run[m], l) && AllReached(run, acts, l, i, n)
    ensures acts[m].Handling? ==> Noticed(run[m], l)
  {
    HistoryFits(run, acts, l, true, m);
    assert Takes(run[m], run[m + 1], acts[m]);
    hide Inv, Base, Covered, ReachedAtHead, Noticed, OnlyPersistent;
    if acts[m].Handling? {
      ReachedIsNoticed(run[m], Requested(acts), Stake(l, true, OnlyPersistent(acts, l, m, m)));
    }
  }

  // ----- the results -----

  /** A persistent location is never forgotten: whenever the queue is drained while it is held, it is watched, if
      every recheck has reached a watch that waits for it and no recursive location around it is ever given up. */
  lemma NeverForgotten(run: seq<State>, acts: seq<Act>, l: Path, i: nat, n: nat)
    requires History(run, acts) && Holding(acts, l, i, n) && Sheltered(acts, l)
    requires AllReached(run, acts, l, i, n)
    requires run[n].kernel.queue == []
    ensures Watched(run[n].kernel, run[n].table, l)
  {
    assert i < n <= |acts|;
    hide Covered, Watched, AllReached, Holding, Sheltered;
    ReachedCovers(run, acts, l, i, n, n);
    DrainedIsWatched(run, acts, l, n);
  }

  lemma DrainedIsWatched(run: seq<State>, acts: seq<Act>, l: Path, n: nat)
    requires History(run, acts) && n <= |acts| && run[n].kernel.queue == []
    ensures Covered(run[n], l) <==> Watched(run[n].kernel, run[n].table, l)
  {
    HistoryFits(run, acts, l, false, n);
    hide History, Inv, Base, Covered, Watched, OnlyPersistent;
    CoveredIsWatched(run[n], Requested(acts), Stake(l, false, OnlyPersistent(acts, l, n, n)), l);
  }

  /** A location that no other is ever requested besides is never forgotten, whatever directories come and go and
      in whatever order the events are handled. */
  lemma AloneNeverForgotten(run: seq<State>, acts: seq<Act>, l: Path, i: nat, n: nat)
    requires History(run, acts) && Holding(acts, l, i, n)
    requires forall act :: act in acts && act.Request? ==> act.adir.location == l
    requires run[n].kernel.queue == []
    ensures Watched(run[n].kernel, run[n].table, l)
  {
    AloneIsSheltered(acts, l);
    forall m | i < m < n && acts[m].Handling? ensures ReachedAtHead(run[m], l) {
      HistoryFits(run, acts, l, false, m);
      assert Takes(run[m], run[m + 1], acts[m]);
      hide History, Inv;
      WaitsForNoOther(run[m], acts, Stake(l, false, OnlyPersistent(acts, l, m, m)));
      AloneIsReached(run[m], l);
    }
    assert AllReached(run, acts, l, i, n);
    hide History, Holding, AllReached, Watched, Sheltered;
    NeverForgotten(run, acts, l, i, n);
  }

  lemma AloneIsSheltered(acts: seq<Act>, l: Path)
    requires forall act :: act in acts && act.Request? ==> act.adir.location == l
    ensures Sheltered(acts, l)
  {
    forall f | f in Requested(acts) ensures f.location == l {
    }
  }

  lemma WaitsForNoOther(st: State, acts: seq<Act>, q: Stake)
    requires Base(st, Requested(acts), q)
    requires forall act :: act in acts && act.Request? ==> act.adir.location == q.location
    ensures st.kernel.queue != [] && st.kernel.queue[0].wd in st.table ==>
              forall w :: w in st.table[st.kernel.queue[0].wd].watches && w.Missing() ==> w.adir.location == q.location
  {
    if st.kernel.queue != [] && st.kernel.queue[0].wd in st.table {
      var x := st.kernel.queue[0].wd;
      assert EntryFits(st.kernel, Requested(acts), x, st.table[x]);
      forall w | w in st.table[x].watches && w.Missing() ensures w.adir.location == q.location {
        assert WatchFits(Requested(acts), st.table[x].path, w);
      }
    }
  }
}
