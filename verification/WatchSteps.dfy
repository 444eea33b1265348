/**
 What single events do in the runs that follow: those that change nothing, and those whose entry
 holds one watch.
 */
module WatchSteps {
  import opened Wrappers
  import opened InotifyKernel
  import opened WatchTable
  import opened WatchInvariant
  import opened TreeSteps

  lemma {:induction false} NothingMissing(st: State, wd: int, i: nat, n: nat)
    requires wd in st.table && [] in st.kernel.dirs && forall w :: w in st.table[wd].watches ==> !w.Missing()
    ensures RecheckFrom(st, wd, i, n) == st
    decreases n - i
  {
    if i < n && i < |st.table[wd].watches| {
      assert st.table[wd].watches[i] in st.table[wd].watches;
      NothingMissing(st, wd, i + 1, n);
    }
  }

  /** A directory moved out or in below an entry without watches for missing paths; moved in, it lies
      below no location. */
  lemma QuietMove(st: State)
    requires st.kernel.queue != [] && [] in st.kernel.dirs && st.kernel.queue[0].wd in st.table
    requires forall w :: w in st.table[st.kernel.queue[0].wd].watches ==> !w.Missing()
    requires var ev := st.kernel.queue[0];
             || ev.kind.MovedFrom?
             || (ev.kind.MovedTo? && forall w :: w in st.table[ev.wd].watches ==> !w.Regular())
    ensures HandleEvent(st, [], 0) == Dequeued(st)
  {
    var ev, s := st.kernel.queue[0], Dequeued(st);
    NothingMissing(s, ev.wd, 0, |s.table[ev.wd].watches|);
  }

  /** IN_MOVE_SELF on an entry with one watch, a regular one: the rest is up to the storage part. */
  lemma MovedAlone(st: State, w: Watch)
    requires st.kernel.queue != [] && [] in st.kernel.dirs && st.kernel.queue[0].wd in st.table
    requires var ev := st.kernel.queue[0];
             ev.kind.MoveSelf? && st.table[ev.wd].watches == [w] && w.Regular() && w.normPath <= st.table[ev.wd].path
    ensures var ev, s := st.kernel.queue[0], Dequeued(st);
            HandleEvent(st, [], 1) == HandleContent(s, ev, w, s.table[ev.wd].path, [])
  {
    var ev, s := st.kernel.queue[0], Dequeued(st);
    NothingMissing(s, ev.wd, 0, 1);
    assert [w][..0] == [];
    assert BestMatch([w], s.table[ev.wd].path) == Some(w);
    assert CheckMoves(s, ev.wd, 1) == s;
  }

  /** IN_DELETE_SELF on a dead entry with one watch, a regular one of a directory that is not persistent. */
  lemma DeletedAlone(st: State, w: Watch)
    requires st.kernel.queue != [] && [] in st.kernel.dirs && st.kernel.queue[0].wd in st.table
    requires var ev := st.kernel.queue[0];
             && ev.kind.DeleteSelf? && st.table[ev.wd].watches == [w] && w.Regular() && !w.adir.persistent
             && w.normPath <= st.table[ev.wd].path && !Dequeued(st).kernel.Live(ev.wd)
    ensures HandleEvent(st, [], 0) == Dequeued(st)
  {
    var ev, s := st.kernel.queue[0], Dequeued(st);
    NothingMissing(s, ev.wd, 0, 1);
    assert [w][..0] == [];
    assert BestMatch([w], s.table[ev.wd].path) == Some(w);
  }

  /** IN_IGNORED for an entry: the clean-up alone. */
  lemma IgnoredHandled(st: State, wd: int)
    requires st.kernel.queue != [] && [] in st.kernel.dirs && st.kernel.queue[0] == IgnoredEvent(wd) && wd in st.table
    ensures HandleEvent(st, [], 0) == Forget(Dequeued(st), wd)
  {
    IgnoredDispatch(Dequeued(st), IgnoredEvent(wd), [], 0);
  }

  /** Two equal move watches around another one: the sweep leaves one of them. */
  lemma SweepOfThree(a: Watch, b: Watch)
    requires a != b
    ensures Sweep([a, b, a], a, 0) == [a, b]
  {
    assert RemoveUnordered([a, b, a], 0) == [a, b];
    assert Sweep([a, b], a, 2) == [a, b];
    assert Sweep([a, b], a, 1) == [a, b];
  }

  lemma SweepOfTwo(a: Watch, b: Watch)
    requires a != b
    ensures Sweep([a, b], a, 0) == [b]
  {
    assert RemoveUnordered([a, b], 0) == [b];
    assert Sweep([b], a, 1) == [b];
  }

  /** The deletion of an empty directory is a step, wherever its descriptor was obtained. */
  lemma RmdirIsAStep(st: State, p: Path, selfFirst: bool)
    requires st.kernel.WellFormed() && CanRmdir(st.kernel, p)
    ensures Step(st, st.(kernel := Rmdir(st.kernel, p, selfFirst)))
  {
    var k, k' := st.kernel, Rmdir(st.kernel, p, selfFirst);
    forall q | q in k'.dirs && q != [] ensures Parent(q) in k'.dirs {
      assert Parent(q) < q;
    }
    assert k'.WellFormed();
    hide Kernel.WellFormed;
    forall x | k.Live(x) ensures k'.Live(x) || IgnoredEvent(x) in k'.queue {
      var i :| i in k.wds && k.wds[i] == x;
      if i == k.dirs[p] {
        assert SelfEvents(k, p)[1] == IgnoredEvent(x);
      } else {
        assert i in k'.wds && k'.wds[i] == x;
      }
    }
    assert EnvironmentStep(k, k');
  }
}
