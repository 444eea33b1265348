/**
 Which missing-path watches one pass of recheckNonexistingMonitors reaches. Rechecking a watch takes it
 out with removeUnordered, so that the last watch of the list takes its place behind the loop's index
 and is skipped; and it may put a watch back at the end of the same list, which is then the next to be
 taken to the front.
 */
module WatchRecheck {
  import opened Wrappers
  import opened InotifyKernel
  import opened WatchTable
  import opened WatchInvariant
  import opened WatchEffects
  import opened WatchCleanup

  // ----- what can be said before the pass -----

  /** The path of a missing-path watch is, as a whole, the directory that wd watches. */
  ghost predicate AtItself(k: Kernel, wd: int, w: Watch)
    requires w.Missing()
  {
    w.nonexisting.value.comps in k.dirs && WatchOf(k, w.nonexisting.value.comps) == wd
  }

  /** Rechecking w puts a watch back on the list of wd: w's path again if it still breaks off there, a move
      watch if the path exists and leads through wd's directory, or a start point on that directory itself,
      unless it has a regular watch for the location or got one in this pass (`own`). */
  ghost predicate PutsBack(k: Kernel, wd: int, ws: seq<Watch>, w: Watch, own: set<Path>)
    requires w.Missing() && [] in k.dirs
  {
    var c := w.nonexisting.value.comps;
    var n := Deepest(k.dirs, c);
    if n < |c| then WatchOf(k, c[..n]) == wd
    else Between(k, c, 0, wd)
         || (WatchOf(k, c) == wd && !HasRegular(ws, w.adir.location) && w.adir.location !in own)
  }

  /** The end of the list when the loop has passed p of the watches it started with: how many of those have
      been skipped from the end, and the watch rechecked last if that has put one back. */
  datatype Tail = Tail(skipped: nat, back: Option<Watch>, own: set<Path>)

  ghost function TailAt(k: Kernel, wd: int, ws: seq<Watch>, p: nat): (t: Tail)
    requires p <= |ws| && [] in k.dirs
    ensures t.skipped <= p
  {
    if p == 0 then Tail(0, None, {})
    else
      var t, w := TailAt(k, wd, ws, p - 1), ws[p - 1];
      if !w.Missing() then t
      else Tail(t.skipped + (if t.back.Some? then 0 else 1), if PutsBack(k, wd, ws, w, t.own) then Some(w) else None,
                if AtItself(k, wd, w) then t.own + {w.adir.location} else t.own)
  }

  /** How many watches of the list the loop reaches: it ends where those passed and those skipped meet. */
  ghost function Reach(k: Kernel, wd: int, ws: seq<Watch>, p: nat): (m: nat)
    requires p <= |ws| && [] in k.dirs
    ensures p <= m <= |ws|
    ensures forall q :: p <= q < m ==> q + TailAt(k, wd, ws, q).skipped < |ws|
    ensures m == |ws| || m + TailAt(k, wd, ws, m).skipped >= |ws|
    decreases |ws| - p
  {
    if p == |ws| || p + TailAt(k, wd, ws, p).skipped >= |ws| then p else Reach(k, wd, ws, p + 1)
  }

  /** The watches the loop looks at, in order. */
  ghost function Looked(st: State, wd: int, i: nat, n: nat): seq<Watch>
    requires wd in st.table && [] in st.kernel.dirs
    decreases n - i
  {
    if i >= n || i >= |st.table[wd].watches| then []
    else [st.table[wd].watches[i]] + Looked(RecheckOne(st, wd, i), wd, i + 1, n)
  }

  // ----- the list while the loop runs -----

  /** v is what rechecking w puts back: the same missing path under a new id, the start point for it, or the move
      watch for the directory that has come to be. */
  ghost predicate IsBack(k: Kernel, w: Watch, v: Watch, nextId: nat) {
    w.Missing() && [] in k.dirs &&
    var c := w.nonexisting.value.comps;
    if Deepest(k.dirs, c) < |c| then IsNew(v, nextId, false, w, w.nonexisting)
    else v == MoveWatch(WatchOf(k, c)) || IsNew(v, nextId, true, w, None)
  }

  ghost predicate IsNew(v: Watch, nextId: nat, startPoint: bool, w: Watch, missing: Option<PathArray>)
    requires w.AutoscanWatch?
  {
    v.AutoscanWatch? && v.id >= nextId && v == AutoscanWatch(v.id, startPoint, w.adir, w.normPath, missing)
  }

  ghost predicate ListShape(st: State, r: State, wd: int, p: nat)
    requires wd in st.table && [] in st.kernel.dirs && p <= |st.table[wd].watches|
  {
    && wd in r.table
    && Lists(st.table[wd].watches, r.table[wd].watches, p,
             TailAt(st.kernel, wd, st.table[wd].watches, p), r.kernel, st.nextId)
  }

  /** The list `cur` when the loop over ws is at p: from there on the watches of ws but for those skipped, and
      the one put back. */
  ghost predicate Lists(ws: seq<Watch>, cur: seq<Watch>, p: nat, t: Tail, k: Kernel, nextId: nat) {
    && t.skipped <= |ws| && |cur| == |ws| - t.skipped + (if t.back.Some? then 1 else 0)
    && (forall i :: p <= i < |ws| - t.skipped ==> cur[i] == ws[i])
    && (t.back.Some? ==> IsBack(k, t.back.value, cur[|ws| - t.skipped], nextId))
  }

  ghost predicate RegularsAre(ws: seq<Watch>, before: seq<Watch>, own: set<Path>) {
    forall loc :: HasRegular(ws, loc) <==> HasRegular(before, loc) || loc in own
  }

  ghost predicate Shape(st: State, r: State, wd: int, p: nat)
    requires wd in st.table && [] in st.kernel.dirs && p <= |st.table[wd].watches|
  {
    && ListShape(st, r, wd, p) && Inv(r) && Extends(st.kernel, r.kernel) && st.nextId <= r.nextId
    && RegularsAre(r.table[wd].watches, st.table[wd].watches,
                   TailAt(st.kernel, wd, st.table[wd].watches, p).own)
  }

  /** Watching more directories does not change which of them wd watches. */
  lemma SameWatcher(k: Kernel, k': Kernel, q: Path, wd: int)
    requires Extends(k, k') && 1 <= wd < k.nextWd
    ensures WatchOf(k', q) == wd <==> WatchOf(k, q) == wd
  {
  }

  lemma SameBetween(k: Kernel, k': Kernel, p: Path, wd: int)
    requires Extends(k, k') && 1 <= wd < k.nextWd
    ensures Between(k', p, 0, wd) <==> Between(k, p, 0, wd)
  {
    if Between(k', p, 0, wd) {
      var j :| 0 <= j < |p| && p[..j] in k'.dirs && WatchOf(k', p[..j]) == wd;
      SameWatcher(k, k', p[..j], wd);
    }
    if Between(k, p, 0, wd) {
      var j :| 0 <= j < |p| && p[..j] in k.dirs && WatchOf(k, p[..j]) == wd;
      SameWatcher(k, k', p[..j], wd);
    }
  }

  lemma SelfIsNotBetween(k: Kernel, q: Path, wd: int)
    requires k.WellFormed() && q in k.dirs && WatchOf(k, q) == wd >= 1
    ensures !Between(k, q, 0, wd)
  {
    assert forall j :: 0 <= j < |q| ==> |q[..j]| != |q|;
  }

  lemma AppendedRegular(ws: seq<Watch>, w: Watch)
    ensures forall loc :: HasRegular(ws + [w], loc) <==> HasRegular(ws, loc) || Matches(RegularFor(loc), w)
  {
    assert (ws + [w])[|ws|] == w;
    forall loc ensures HasRegular(ws + [w], loc) <==> HasRegular(ws, loc) || Matches(RegularFor(loc), w) {
      assert forall v :: v in ws + [w] <==> v in ws || v == w;
    }
  }

  lemma MonitorIds(st: State, p: Path, adir: Adir, norm: Path, startPoint: bool, missing: Option<PathArray>)
    requires st.kernel.WellFormed() && p in st.kernel.dirs
    ensures st.nextId <= MonitorExisting(st, p, adir, norm, startPoint, missing).nextId
  {
    AddWatchKeeps(st.kernel, p);
    var (k, wd) := st.kernel.AddWatch(p);
    WatchAboveAt(st.(kernel := k), p, wd, startPoint, 1);
  }

  /** The watch that monitoring directory q for a missing-path watch w puts back on wd's own list. */
  ghost predicate Back(k: Kernel, q: Path, ws: seq<Watch>, w: Watch, starts: bool, wd: int)
    requires w.AutoscanWatch?
  {
    if starts then Between(k, q, 0, wd) || (WatchOf(k, q) == wd && !HasRegular(ws, w.adir.location))
    else WatchOf(k, q) == wd
  }

  ghost predicate MonitorEffect(k: Kernel, s: State, r: State, q: Path, w: Watch, missing: Option<PathArray>, wd: int)
    requires wd in s.table && w.AutoscanWatch?
  {
    var starts := missing.None?;
    var ws, back := s.table[wd].watches, Back(k, q, s.table[wd].watches, w, starts, wd);
    && wd in r.table && |r.table[wd].watches| == |ws| + (if back then 1 else 0)
    && r.table[wd].watches[..|ws|] == ws
    && (back ==> r.table[wd].watches[|ws|] ==
                 if WatchOf(k, q) == wd then AutoscanWatch(s.nextId, starts, w.adir, w.normPath, missing)
                 else MoveWatch(WatchOf(k, q)))
    && (forall loc :: HasRegular(r.table[wd].watches, loc) <==>
                      HasRegular(ws, loc) || (starts && WatchOf(k, q) == wd && loc == w.adir.location))
  }

  lemma MonitorPutsBack(s: State, q: Path, w: Watch, missing: Option<PathArray>, wd: int, r: State)
    requires Inv(s) && 1 <= wd < s.kernel.nextWd && wd in s.table && w.AutoscanWatch?
    requires q in s.kernel.dirs && r == MonitorExisting(s, q, w.adir, w.normPath, missing.None?, missing)
    ensures MonitorEffect(r.kernel, s, r, q, w, missing, wd)
  {
    MonitorExistingInv(s, q, w.adir, w.normPath, missing.None?, missing);
    MonitorExistingAt(s, q, w.adir, w.normPath, missing.None?, missing, wd);
    if missing.None? { MonitorStarts(s, q, w.adir, w.normPath, r); }
    hide MonitorExisting;
    if WatchOf(r.kernel, q) == wd {
      SelfIsNotBetween(r.kernel, q, wd);
      hide Inv, Between;
      OwnPutsBack(s, q, w, missing, wd, r);
    } else {
      hide Inv, Between, OwnEffect, PathEffect;
      OtherPutsBack(s, q, w, missing, wd, r);
    }
  }

  lemma OwnPutsBack(s: State, q: Path, w: Watch, missing: Option<PathArray>, wd: int, r: State)
    requires wd in s.table && w.AutoscanWatch? && WatchOf(r.kernel, q) == wd && !Between(r.kernel, q, 0, wd)
    requires wd in r.table
    requires var ws, own := s.table[wd].watches, AutoscanWatch(s.nextId, missing.None?, w.adir, w.normPath, missing);
             if missing.None? && HasRegular(ws, w.adir.location) then r.table[wd].watches == ws
             else r.table[wd].watches == ws + [own]
    ensures MonitorEffect(r.kernel, s, r, q, w, missing, wd)
  {
    AppendedRegular(s.table[wd].watches, AutoscanWatch(s.nextId, missing.None?, w.adir, w.normPath, missing));
  }

  lemma OtherPutsBack(s: State, q: Path, w: Watch, missing: Option<PathArray>, wd: int, r: State)
    requires wd in s.table && w.AutoscanWatch? && WatchOf(r.kernel, q) != wd
    requires MoveEffect(s, r, q, missing.None?, wd) && wd in r.table
    ensures MonitorEffect(r.kernel, s, r, q, w, missing, wd)
  {
    AppendedRegular(s.table[wd].watches, MoveWatch(WatchOf(r.kernel, q)));
  }

  // ----- one iteration -----

  /** Taking out a watch at or before p moves nothing after p, but for the last watch. */
  lemma DropBefore(ws: seq<Watch>, j: nat, p: nat)
    requires j <= p < |ws|
    ensures |RemoveUnordered(ws, j)| == |ws| - 1
    ensures forall i :: p < i < |ws| - 1 ==> RemoveUnordered(ws, j)[i] == ws[i]
  {
  }

  /** Taking out a missing-path watch leaves the regular ones. */
  lemma DropKeepsRegular(ws: seq<Watch>, j: nat)
    requires j < |ws| && ws[j].Missing()
    ensures forall loc :: HasRegular(RemoveUnordered(ws, j), loc) <==> HasRegular(ws, loc)
  {
    OthersStay(ws, j);
    hide RemoveUnordered;
  }

  /** Whether a watch is put back can be told from the kernel and the list before the pass. */
  lemma BackIsKnown(k: Kernel, k': Kernel, wd: int, ws: seq<Watch>, cur: seq<Watch>, w: Watch, own: set<Path>, q: Path)
    requires Extends(k, k') && 1 <= wd < k.nextWd && w.Missing() && [] in k.dirs
    requires q == w.nonexisting.value.comps[..Deepest(k.dirs, w.nonexisting.value.comps)]
    requires HasRegular(cur, w.adir.location) <==> HasRegular(ws, w.adir.location) || w.adir.location in own
    ensures var starts := q == w.nonexisting.value.comps;
            && (Back(k', q, cur, w, starts, wd) <==> PutsBack(k, wd, ws, w, own))
            && (starts && WatchOf(k', q) == wd <==> AtItself(k, wd, w))
  {
    SameWatcher(k, k', q, wd);
    SameBetween(k, k', q, wd);
    var c := w.nonexisting.value.comps;
    var n := Deepest(k.dirs, c);
    assert c[..|c|] == c;
    assert q == c <==> n == |c|;
    hide Extends, Between;
  }

  lemma ShapeStep(st: State, wd: int, p: nat, r: State, r': State)
    requires Inv(st) && wd in st.table && [] in st.kernel.dirs
    requires p < |st.table[wd].watches| && 2 <= |st.table[wd].watches|
    requires p + TailAt(st.kernel, wd, st.table[wd].watches, p).skipped < |st.table[wd].watches|
    requires Shape(st, r, wd, p) && [] in r.kernel.dirs && r' == RecheckOne(r, wd, p)
    ensures Shape(st, r', wd, p + 1)
  {
    hide Inv, TailAt, RegularsAre;
    var w := st.table[wd].watches[p];
    assert r.table[wd].watches[p] == w && r.kernel.dirs == st.kernel.dirs;
    hide Shape, Extends;
    if w.Missing() {
      MissingShape(st, wd, p, r, r');
    } else {
      PassesBy(st, wd, p, r);
    }
  }

  /** A watch of another kind is passed by. */
  lemma PassesBy(st: State, wd: int, p: nat, r: State)
    requires wd in st.table && [] in st.kernel.dirs && p < |st.table[wd].watches|
    requires Shape(st, r, wd, p) && !st.table[wd].watches[p].Missing()
    ensures Shape(st, r, wd, p + 1)
  {
    hide Inv, Extends, RegularsAre, PutsBack, AtItself;
  }

  lemma MissingShape(st: State, wd: int, p: nat, r: State, r': State)
    requires Inv(st) && wd in st.table && [] in st.kernel.dirs && [] in r.kernel.dirs && r.kernel.dirs == st.kernel.dirs
    requires p < |st.table[wd].watches| && 2 <= |st.table[wd].watches| && st.table[wd].watches[p].Missing()
    requires p + TailAt(st.kernel, wd, st.table[wd].watches, p).skipped < |st.table[wd].watches|
    requires Shape(st, r, wd, p) && p < |r.table[wd].watches| && r.table[wd].watches[p] == st.table[wd].watches[p]
    requires r' == RecheckOne(r, wd, p)
    ensures Shape(st, r', wd, p + 1)
  {
    hide Inv, TailAt, Shape, Iteration, RecheckOne;
    var j, s, q, missing := IterationOf(st, wd, p, r, r');
    MissingStep(st, wd, p, r, j, s, q, missing, r');
  }

  lemma IterationOf(st: State, wd: int, p: nat, r: State, r': State)
    returns (j: nat, s: State, q: Path, missing: Option<PathArray>)
    requires Inv(st) && wd in st.table && [] in st.kernel.dirs && [] in r.kernel.dirs && r.kernel.dirs == st.kernel.dirs
    requires p < |st.table[wd].watches| && 2 <= |st.table[wd].watches| && st.table[wd].watches[p].Missing()
    requires p + TailAt(st.kernel, wd, st.table[wd].watches, p).skipped < |st.table[wd].watches|
    requires Shape(st, r, wd, p) && p < |r.table[wd].watches| && r.table[wd].watches[p] == st.table[wd].watches[p]
    requires r' == RecheckOne(r, wd, p)
    ensures Iteration(st, wd, p, r, j, s, q, missing, r')
  {
    var w := st.table[wd].watches[p];
    WatchNumber(st, wd);
    hide Inv, TailAt, RegularsAre, Extends, ListShape;
    j, s, q, missing := RecheckOneIs(r, wd, p, r');
    MonitorExistingInv(s, q, w.adir, w.normPath, missing.None?, missing);
    hide RecheckOne, MonitorExisting, DropWatch;
  }

  lemma WatchNumber(st: State, wd: int)
    requires Inv(st) && wd in st.table
    ensures 1 <= wd < st.kernel.nextWd
  {
    assert EntryOk(st.kernel, wd, st.table[wd].watches);
  }

  lemma DropStep(r: State, wd: int, j: nat, p: nat, s: State)
    requires wd in r.table && j <= p < |r.table[wd].watches| && 2 <= |r.table[wd].watches|
    requires r.table[wd].watches[j].Missing() && s == DropWatch(r, wd, j)
    ensures s.kernel == r.kernel && s.nextId == r.nextId && wd in s.table
    ensures var cur, dropped := r.table[wd].watches, s.table[wd].watches;
            && |dropped| == |cur| - 1 && (forall i :: p < i < |cur| - 1 ==> dropped[i] == cur[i])
            && (forall loc :: HasRegular(dropped, loc) <==> HasRegular(cur, loc))
  {
    DropBefore(r.table[wd].watches, j, p);
    DropKeepsRegular(r.table[wd].watches, j);
  }

  /** The same effect, told from the kernel and the list before the pass. */
  lemma EffectIsKnown(st: State, wd: int, p: nat, t: Tail, s: State, q: Path, missing: Option<PathArray>, r': State)
    requires wd in st.table && [] in st.kernel.dirs && 1 <= wd < st.kernel.nextWd && p < |st.table[wd].watches|
    requires t == TailAt(st.kernel, wd, st.table[wd].watches, p) && st.table[wd].watches[p].Missing()
    requires wd in s.table && RegularsAre(s.table[wd].watches, st.table[wd].watches, t.own)
    requires Extends(st.kernel, r'.kernel)
    requires var w := st.table[wd].watches[p]; var c := w.nonexisting.value.comps;
             && q == c[..Deepest(st.kernel.dirs, c)] && (missing.None? <==> q == c)
             && (missing.Some? ==> missing == w.nonexisting)
             && MonitorEffect(r'.kernel, s, r', q, w, missing, wd)
    ensures var t' := TailAt(st.kernel, wd, st.table[wd].watches, p + 1);
            var dropped := s.table[wd].watches;
            && t'.skipped == t.skipped + (if t.back.Some? then 0 else 1)
            && wd in r'.table && |r'.table[wd].watches| == |dropped| + (if t'.back.Some? then 1 else 0)
            && r'.table[wd].watches[..|dropped|] == dropped
            && (t'.back.Some? ==> IsBack(r'.kernel, t'.back.value, r'.table[wd].watches[|dropped|], s.nextId))
            && RegularsAre(r'.table[wd].watches, st.table[wd].watches, t'.own)
  {
    var ws, w := st.table[wd].watches, st.table[wd].watches[p];
    BackIsKnown(st.kernel, r'.kernel, wd, ws, s.table[wd].watches, w, t.own, q);
    BackIsNew(st.kernel, s, r', q, w, missing, wd);
    hide Extends, Back, PutsBack, AtItself, HasRegular;
  }

  lemma BackIsNew(k: Kernel, s: State, r: State, q: Path, w: Watch, missing: Option<PathArray>, wd: int)
    requires w.Missing() && wd in s.table && MonitorEffect(r.kernel, s, r, q, w, missing, wd)
    requires [] in k.dirs && r.kernel.dirs == k.dirs
    requires q == w.nonexisting.value.comps[..Deepest(k.dirs, w.nonexisting.value.comps)]
    requires (missing.None? <==> q == w.nonexisting.value.comps) && (missing.Some? ==> missing == w.nonexisting)
    ensures var ws := s.table[wd].watches;
            |r.table[wd].watches| > |ws| ==> IsBack(r.kernel, w, r.table[wd].watches[|ws|], s.nextId)
  {
    var c := w.nonexisting.value.comps;
    assert c[..|c|] == c;
  }

  /** The recheck of the missing-path watch at p, step by step. */
  ghost predicate Iteration(st: State, wd: int, p: nat, r: State, j: nat, s: State, q: Path,
                            missing: Option<PathArray>, r': State) {
    && wd in st.table && [] in st.kernel.dirs && 1 <= wd < st.kernel.nextWd
    && p < |st.table[wd].watches| && 2 <= |st.table[wd].watches| && st.table[wd].watches[p].Missing()
    && p + TailAt(st.kernel, wd, st.table[wd].watches, p).skipped < |st.table[wd].watches|
    && Shape(st, r, wd, p) && j <= p && r.table[wd].watches[j].Missing() && s == DropWatch(r, wd, j)
    && Inv(s) && q in s.kernel.dirs && Inv(r')
    && var w := st.table[wd].watches[p]; var c := w.nonexisting.value.comps;
       && q == c[..Deepest(st.kernel.dirs, c)] && (missing.None? <==> q == c)
       && (missing.Some? ==> missing == w.nonexisting)
       && r' == MonitorExisting(s, q, w.adir, w.normPath, missing.None?, missing)
  }

  /** The list without the watch taken out. */
  ghost predicate TakenOut(st: State, wd: int, p: nat, r: State, s: State) {
    && wd in st.table && [] in st.kernel.dirs && p < |st.table[wd].watches| && wd in r.table && wd in s.table
    && s.nextId == r.nextId
    && var cur, dropped := r.table[wd].watches, s.table[wd].watches;
       && |dropped| == |cur| - 1 && (forall i :: p < i < |cur| - 1 ==> dropped[i] == cur[i])
       && RegularsAre(dropped, st.table[wd].watches, TailAt(st.kernel, wd, st.table[wd].watches, p).own)
  }

  lemma IterationTakesOut(st: State, wd: int, p: nat, r: State, j: nat, s: State, q: Path,
                          missing: Option<PathArray>, r': State)
    requires Iteration(st, wd, p, r, j, s, q, missing, r')
    ensures TakenOut(st, wd, p, r, s)
  {
    hide Inv, DropWatch, MonitorExisting, TailAt, Extends, HasRegular;
    DropStep(r, wd, j, p, s);
    SameRegulars(s.table[wd].watches, r.table[wd].watches, st.table[wd].watches,
                 TailAt(st.kernel, wd, st.table[wd].watches, p).own);
  }

  lemma IterationMonitors(st: State, wd: int, p: nat, r: State, j: nat, s: State, q: Path,
                          missing: Option<PathArray>, r': State)
    requires Iteration(st, wd, p, r, j, s, q, missing, r') && TakenOut(st, wd, p, r, s)
    ensures MonitorEffect(r'.kernel, s, r', q, st.table[wd].watches[p], missing, wd)
    ensures Extends(st.kernel, r'.kernel) && st.nextId <= s.nextId <= r'.nextId
  {
    hide Inv, MonitorExisting, TailAt, MonitorEffect, RegularsAre, HasRegular;
    assert Extends(st.kernel, s.kernel);
    hide Extends;
    MonitorStep(st.kernel, wd, s, q, st.table[wd].watches[p], missing, r');
  }

  lemma IterationKnown(st: State, wd: int, p: nat, r: State, j: nat, s: State, q: Path,
                       missing: Option<PathArray>, r': State)
    requires Iteration(st, wd, p, r, j, s, q, missing, r') && TakenOut(st, wd, p, r, s)
    requires MonitorEffect(r'.kernel, s, r', q, st.table[wd].watches[p], missing, wd)
    requires Extends(st.kernel, r'.kernel) && st.nextId <= s.nextId
    ensures ListShape(st, r', wd, p + 1)
    ensures RegularsAre(r'.table[wd].watches, st.table[wd].watches,
                        TailAt(st.kernel, wd, st.table[wd].watches, p + 1).own)
  {
    hide Inv, MonitorExisting, DropWatch, TailAt, MonitorEffect, RegularsAre, HasRegular, Extends;
    var ws := st.table[wd].watches;
    var t, t' := TailAt(st.kernel, wd, ws, p), TailAt(st.kernel, wd, ws, p + 1);
    EffectIsKnown(st, wd, p, t, s, q, missing, r');
    ListStep(ws, r.table[wd].watches, s.table[wd].watches, r'.table[wd].watches, p, t, t', r.kernel, r'.kernel,
             st.nextId, s.nextId);
  }

  lemma MissingStep(st: State, wd: int, p: nat, r: State, j: nat, s: State, q: Path, missing: Option<PathArray>,
                    r': State)
    requires Iteration(st, wd, p, r, j, s, q, missing, r')
    ensures p < |st.table[wd].watches| && Shape(st, r', wd, p + 1)
  {
    IterationTakesOut(st, wd, p, r, j, s, q, missing, r');
    IterationMonitors(st, wd, p, r, j, s, q, missing, r');
    IterationKnown(st, wd, p, r, j, s, q, missing, r');
    hide Inv, MonitorExisting, DropWatch, TailAt, MonitorEffect, RegularsAre, HasRegular, Extends, ListShape, TakenOut;
  }

  lemma SameRegulars(dropped: seq<Watch>, cur: seq<Watch>, ws: seq<Watch>, own: set<Path>)
    requires RegularsAre(cur, ws, own) && forall loc :: HasRegular(dropped, loc) <==> HasRegular(cur, loc)
    ensures RegularsAre(dropped, ws, own)
  {
  }

  lemma MonitorStep(k: Kernel, wd: int, s: State, q: Path, w: Watch, missing: Option<PathArray>, r: State)
    requires Inv(s) && Extends(k, s.kernel) && 1 <= wd < k.nextWd && wd in s.table && w.AutoscanWatch?
    requires q in s.kernel.dirs && r == MonitorExisting(s, q, w.adir, w.normPath, missing.None?, missing)
    ensures MonitorEffect(r.kernel, s, r, q, w, missing, wd)
    ensures Extends(k, r.kernel) && s.nextId <= r.nextId
  {
    hide Inv, MonitorExisting, MonitorEffect;
    NextWdGrows(k, s.kernel);
    MonitorPutsBack(s, q, w, missing, wd, r);
    MonitoredKernel(s, q, w, missing, r);
    ExtendsTrans(k, s.kernel, r.kernel);
  }

  lemma NextWdGrows(k: Kernel, k': Kernel)
    requires Extends(k, k')
    ensures k.nextWd <= k'.nextWd
  {
  }

  lemma MonitoredKernel(s: State, q: Path, w: Watch, missing: Option<PathArray>, r: State)
    requires Inv(s) && q in s.kernel.dirs && w.AutoscanWatch?
    requires r == MonitorExisting(s, q, w.adir, w.normPath, missing.None?, missing)
    ensures Extends(s.kernel, r.kernel) && s.nextId <= r.nextId
  {
    MonitorIds(s, q, w.adir, w.normPath, missing.None?, missing);
    MonitorExistingAt(s, q, w.adir, w.normPath, missing.None?, missing, 1);
  }

  /** One watch is taken out at or before p, and one may be put back. */
  lemma ListStep(ws: seq<Watch>, cur: seq<Watch>, dropped: seq<Watch>, after: seq<Watch>, p: nat, t: Tail, t': Tail,
                 k: Kernel, k': Kernel, nextId: nat, id: nat)
    requires Lists(ws, cur, p, t, k, nextId) && p + t.skipped < |ws| && nextId <= id
    requires |dropped| == |cur| - 1 && forall i :: p < i < |cur| - 1 ==> dropped[i] == cur[i]
    requires |after| == |dropped| + (if t'.back.Some? then 1 else 0) && after[..|dropped|] == dropped
    requires t'.back.Some? ==> IsBack(k', t'.back.value, after[|dropped|], id)
    requires t'.skipped == t.skipped + (if t.back.Some? then 0 else 1)
    ensures Lists(ws, after, p + 1, t', k', nextId)
  {
    forall i | p + 1 <= i < |ws| - t'.skipped ensures after[i] == ws[i] {
      assert after[i] == after[..|dropped|][i];
    }
  }

  lemma AgreeWellFormed(st: State)
    requires Inv(st)
    ensures st.kernel.WellFormed()
  {
  }

  // ----- the pass -----

  /** From p on, the watches l looked at are those up to m, and perhaps the last one put back. */
  ghost predicate LooksAt(st: State, wd: int, p: nat, l: seq<Watch>, k: Kernel)
    requires wd in st.table && [] in st.kernel.dirs
  {
    var ws := st.table[wd].watches;
    var m := Reach(st.kernel, wd, ws, 0);
    && p <= m <= p + |l| && |l| <= m - p + 1 && l[..m - p] == ws[p..m]
    && (|l| == m - p + 1 ==> LastBack(st, wd, l[m - p], k))
  }

  lemma LooksAtMore(st: State, wd: int, p: nat, l: seq<Watch>, k: Kernel)
    requires wd in st.table && [] in st.kernel.dirs && p < Reach(st.kernel, wd, st.table[wd].watches, 0)
    requires LooksAt(st, wd, p + 1, l, k)
    ensures LooksAt(st, wd, p, [st.table[wd].watches[p]] + l, k)
  {
    hide LastBack, Reach;
    var ws := st.table[wd].watches;
    var m := Reach(st.kernel, wd, ws, 0);
    assert ws[p..m] == [ws[p]] + ws[p + 1..m];
  }

  lemma {:induction false} LookedFrom(st: State, wd: int, p: nat, r: State)
    requires Inv(st) && wd in st.table && [] in st.kernel.dirs && 2 <= |st.table[wd].watches|
    requires p <= Reach(st.kernel, wd, st.table[wd].watches, 0) && Shape(st, r, wd, p) && [] in r.kernel.dirs
    ensures var n := |st.table[wd].watches|; LooksAt(st, wd, p, Looked(r, wd, p, n), RecheckFrom(r, wd, p, n).kernel)
    decreases |st.table[wd].watches| - p
  {
    hide Inv, TailAt, Reach, RecheckOne, LooksAt;
    var ws := st.table[wd].watches;
    if p < Reach(st.kernel, wd, ws, 0) {
      var r' := RecheckOne(r, wd, p);
      assert p + TailAt(st.kernel, wd, ws, p).skipped < |ws|;
      ShapeStep(st, wd, p, r, r');
      assert p < |r.table[wd].watches| && r.table[wd].watches[p] == ws[p];
      hide Shape;
      LookedFrom(st, wd, p + 1, r');
      LooksAtMore(st, wd, p, Looked(r', wd, p + 1, |ws|), RecheckFrom(r', wd, p + 1, |ws|).kernel);
    } else {
      NothingMore(st, wd, p, r);
    }
  }

  lemma NothingMore(st: State, wd: int, p: nat, r: State)
    requires Inv(st) && wd in st.table && [] in st.kernel.dirs && p == Reach(st.kernel, wd, st.table[wd].watches, 0)
    requires Shape(st, r, wd, p) && [] in r.kernel.dirs
    ensures var n := |st.table[wd].watches|; LooksAt(st, wd, p, Looked(r, wd, p, n), RecheckFrom(r, wd, p, n).kernel)
  {
    hide TailAt, Shape, Inv;
    LookedEnd(st, wd, p, r);
    hide Looked, RecheckFrom;
  }

  /** Where those passed and those skipped meet, at most the watch put back last is left. */
  lemma LookedEnd(st: State, wd: int, p: nat, r: State)
    requires Inv(st) && wd in st.table && [] in st.kernel.dirs && p <= |st.table[wd].watches|
    requires p == |st.table[wd].watches|
             || p + TailAt(st.kernel, wd, st.table[wd].watches, p).skipped >= |st.table[wd].watches|
    requires Shape(st, r, wd, p) && [] in r.kernel.dirs
    ensures var l := Looked(r, wd, p, |st.table[wd].watches|);
            |l| <= 1 && (|l| == 1 ==> LastBackAt(st, wd, p, l[0], RecheckFrom(r, wd, p, |st.table[wd].watches|).kernel))
  {
    var n := |st.table[wd].watches|;
    if p < n && p < |r.table[wd].watches| {
      RecheckNeverGrows(r, wd, p);
      var v, r' := r.table[wd].watches[p], RecheckOne(r, wd, p);
      var t := TailAt(st.kernel, wd, st.table[wd].watches, p);
      assert t.back.Some? && IsBack(r.kernel, t.back.value, v, st.nextId);
      assert Looked(r', wd, p + 1, n) == [] && RecheckFrom(r, wd, p, n) == r';
      if !v.MoveWatch? { BackAnywhere(r.kernel, r'.kernel, t.back.value, v, st.nextId); }
    }
  }

  lemma BackAnywhere(k: Kernel, k': Kernel, w: Watch, v: Watch, nextId: nat)
    requires IsBack(k, w, v, nextId) && !v.MoveWatch? && k'.dirs == k.dirs
    ensures IsBack(k', w, v, nextId)
  {
  }

  /** v is what the recheck before p has put back, as the pass leaves it. */
  ghost predicate LastBackAt(st: State, wd: int, p: nat, v: Watch, k: Kernel)
    requires wd in st.table && [] in st.kernel.dirs && p <= |st.table[wd].watches|
  {
    var t := TailAt(st.kernel, wd, st.table[wd].watches, p);
    t.back.Some? && IsBack(k, t.back.value, v, st.nextId)
  }

  ghost predicate LastBack(st: State, wd: int, v: Watch, k: Kernel)
    requires wd in st.table && [] in st.kernel.dirs
  {
    LastBackAt(st, wd, Reach(st.kernel, wd, st.table[wd].watches, 0), v, k)
  }

  /** The pass looks at exactly the first m watches of the list, where m is told from the list and the tree
      beforehand: each missing-path watch costs one watch at the end, unless the one rechecked before it has
      put a watch back. After those it looks at most at one more, the one that the last recheck has put back. */
  lemma RecheckReaches(st: State, wd: int)
    requires Inv(st) && wd in st.table
    ensures [] in st.kernel.dirs
    ensures var ws := st.table[wd].watches;
            var m, l := Reach(st.kernel, wd, ws, 0), Looked(st, wd, 0, |ws|);
            && ws[..m] <= l && |l| <= m + 1
            && (|l| == m + 1 ==> LastBack(st, wd, l[m], RecheckNonexistingMonitors(st, wd).kernel))
  {
    RootExists(st);
    var ws := st.table[wd].watches;
    assert EntryOk(st.kernel, wd, ws);
    if |ws| == 1 {
      RecheckNeverGrows(st, wd, 0);
      assert TailAt(st.kernel, wd, ws, 0).skipped == 0;
      assert Looked(RecheckOne(st, wd, 0), wd, 1, 1) == [];
    } else {
      AgreeWellFormed(st);
      assert Shape(st, st, wd, 0);
      LookedFrom(st, wd, 0, st);
      assert ws[0..Reach(st.kernel, wd, ws, 0)] == ws[..Reach(st.kernel, wd, ws, 0)];
    }
  }

  /** A watch stays in the list unless a missing-path watch with its own path array is looked at. */
  lemma {:induction false} RecheckLeaves(st: State, wd: int, i: nat, n: nat, v: Watch)
    requires Inv(st) && wd in st.table && [] in st.kernel.dirs && v in st.table[wd].watches
    requires forall w :: w in Looked(st, wd, i, n) && w.Missing() ==> !Matches(MissingWith(w.nonexisting.value.id), v)
    ensures v in RecheckFrom(st, wd, i, n).table[wd].watches
    decreases n - i
  {
    if i < n && i < |st.table[wd].watches| {
      var w, r := st.table[wd].watches[i], RecheckOne(st, wd, i);
      assert w in Looked(st, wd, i, n);
      if w.Missing() {
        RecheckOneLeaves(st, wd, i, r, v);
      }
      forall u | u in Looked(r, wd, i + 1, n) ensures u in Looked(st, wd, i, n) {
      }
      hide RecheckOne;
      RecheckLeaves(r, wd, i + 1, n, v);
    }
  }

  lemma RecheckOneLeaves(st: State, wd: int, i: nat, r: State, v: Watch)
    requires Inv(st) && wd in st.table && i < |st.table[wd].watches| && st.table[wd].watches[i].Missing()
    requires v in st.table[wd].watches && [] in st.kernel.dirs && r == RecheckOne(st, wd, i)
    requires !Matches(MissingWith(st.table[wd].watches[i].nonexisting.value.id), v)
    ensures wd in r.table && v in r.table[wd].watches && Inv(r)
  {
    hide Agree;
    var w := st.table[wd].watches[i];
    var j, s, q, missing := RecheckOneIs(st, wd, i, r);
    OthersStay(st.table[wd].watches, j);
    DropKeeps(st, wd, j, s, wd);
    MonitorExistingInv(s, q, w.adir, w.normPath, missing.None?, missing);
    MonitorPutsBack(s, q, w, missing, wd, r);
    var ws := s.table[wd].watches;
    assert v in ws;
    hide MonitorExisting, RecheckOne, DropWatch;
    assert forall u :: u in r.table[wd].watches[..|ws|] ==> u in r.table[wd].watches;
  }

  // ----- what it comes to -----

  lemma {:induction false} NothingSkipped(k: Kernel, wd: int, ws: seq<Watch>, p: nat)
    requires p <= |ws| && [] in k.dirs && forall q :: 0 <= q < p ==> !ws[q].Missing()
    ensures TailAt(k, wd, ws, p) == Tail(0, None, {})
  {
    if p > 0 { NothingSkipped(k, wd, ws, p - 1); }
  }

  /** The first missing-path watch is always reached, so one that is alone in its entry is. */
  lemma FirstMissingReached(k: Kernel, wd: int, ws: seq<Watch>, p: nat)
    requires [] in k.dirs && p < |ws| && forall q :: 0 <= q < p ==> !ws[q].Missing()
    ensures p < Reach(k, wd, ws, 0)
  {
    var m := Reach(k, wd, ws, 0);
    if m <= p { NothingSkipped(k, wd, ws, m); }
  }

  predicate WaitsFor(w: Watch, location: Path) {
    w.Missing() && w.adir.location == location
  }

  /** The pass over ws reaches a watch that waits for the location. */
  ghost predicate Reached(k: Kernel, wd: int, ws: seq<Watch>, location: Path) {
    [] in k.dirs && exists p :: 0 <= p < Reach(k, wd, ws, 0) && WaitsFor(ws[p], location)
  }

  lemma {:induction false} BackIsOne(k: Kernel, wd: int, ws: seq<Watch>, p: nat)
    requires p <= |ws| && [] in k.dirs && TailAt(k, wd, ws, p).back.Some?
    ensures exists q :: 0 <= q < p && ws[q] == TailAt(k, wd, ws, p).back.value
  {
    if !ws[p - 1].Missing() { BackIsOne(k, wd, ws, p - 1); }
  }

  /** Told beforehand, for every location: the pass looks at a watch that waits for it exactly if it reaches one
      of those in the list. */
  lemma LookedExactly(st: State, wd: int, location: Path)
    requires Inv(st) && wd in st.table
    ensures [] in st.kernel.dirs
    ensures (exists w :: w in Looked(st, wd, 0, |st.table[wd].watches|) && WaitsFor(w, location)) <==>
            Reached(st.kernel, wd, st.table[wd].watches, location)
  {
    RecheckReaches(st, wd);
    hide Inv, Looked, TailAt, Reach, RecheckNonexistingMonitors;
    var ws := st.table[wd].watches;
    var m, l := Reach(st.kernel, wd, ws, 0), Looked(st, wd, 0, |ws|);
    if |l| == m + 1 && WaitsFor(l[m], location) {
      LastIsOfOne(st, wd, m, l[m], RecheckNonexistingMonitors(st, wd).kernel, location);
    }
    hide LastBack, Kernel.WellFormed;
    FrontAndOne(ws, l, m, location);
  }

  lemma LastIsOfOne(st: State, wd: int, m: nat, v: Watch, k: Kernel, location: Path)
    requires wd in st.table && [] in st.kernel.dirs && m <= |st.table[wd].watches| && LastBackAt(st, wd, m, v, k)
    requires WaitsFor(v, location)
    ensures exists q :: 0 <= q < m && WaitsFor(st.table[wd].watches[q], location)
  {
    BackIsOne(st.kernel, wd, st.table[wd].watches, m);
    hide TailAt;
    var q :| 0 <= q < m && st.table[wd].watches[q] == TailAt(st.kernel, wd, st.table[wd].watches, m).back.value;
    assert WaitsFor(st.table[wd].watches[q], location);
  }

  lemma FrontAndOne(ws: seq<Watch>, l: seq<Watch>, m: nat, location: Path)
    requires m <= |ws| && ws[..m] <= l && |l| <= m + 1
    requires |l| == m + 1 && WaitsFor(l[m], location) ==> exists q :: 0 <= q < m && WaitsFor(ws[q], location)
    ensures (exists w :: w in l && WaitsFor(w, location)) <==> exists q :: 0 <= q < m && WaitsFor(ws[q], location)
  {
    assert forall i :: 0 <= i < m ==> l[i] == ws[..m][i] == ws[i];
    if w :| w in l && WaitsFor(w, location) {
      var i :| 0 <= i < |l| && l[i] == w;
      assert i < m ==> WaitsFor(ws[i], location);
    }
    if q :| 0 <= q < m && WaitsFor(ws[q], location) {
      assert l[q] in l;
    }
  }

  /** A location is reached that alone is waited for. */
  lemma OnlyOneReached(k: Kernel, wd: int, ws: seq<Watch>, location: Path)
    requires [] in k.dirs && (exists w :: w in ws && WaitsFor(w, location))
    requires forall w :: w in ws && w.Missing() ==> w.adir.location == location
    ensures Reached(k, wd, ws, location)
  {
    var p := FirstMissing(ws, 0);
    FirstMissingReached(k, wd, ws, p);
    assert WaitsFor(ws[p], location);
  }

  lemma FirstMissing(ws: seq<Watch>, i: nat) returns (p: nat)
    requires i <= |ws| && (forall q :: 0 <= q < i ==> !ws[q].Missing()) && exists w :: w in ws && w.Missing()
    ensures p < |ws| && ws[p].Missing() && forall q :: 0 <= q < p ==> !ws[q].Missing()
    decreases |ws| - i
  {
    if ws[i].Missing() { p := i; } else { p := FirstMissing(ws, i + 1); }
  }

  /** A path that breaks off at wd's directory, or exists and leads through it. */
  ghost predicate StaysOn(k: Kernel, wd: int, w: Watch)
    requires [] in k.dirs
  {
    w.Missing() &&
    var c := w.nonexisting.value.comps;
    var n := Deepest(k.dirs, c);
    if n < |c| then WatchOf(k, c[..n]) == wd else Between(k, c, 0, wd)
  }

  lemma {:induction false} OneSkipped(k: Kernel, wd: int, ws: seq<Watch>, p: nat)
    requires [] in k.dirs && 1 <= p <= |ws|
    requires forall i :: 0 <= i < |ws| ==> StaysOn(k, wd, ws[i])
    ensures TailAt(k, wd, ws, p).skipped == 1 && TailAt(k, wd, ws, p).back.Some?
  {
    if p > 1 { OneSkipped(k, wd, ws, p - 1); }
    assert StaysOn(k, wd, ws[p - 1]);
  }

  /** Several paths that wait on one directory, and whose rechecks all put a watch back on it: the pass reaches
      all but the last. */
  lemma LastOfSeveralMissed(k: Kernel, wd: int, ws: seq<Watch>)
    requires [] in k.dirs && 2 <= |ws|
    requires forall i :: 0 <= i < |ws| ==> StaysOn(k, wd, ws[i])
    ensures Reach(k, wd, ws, 0) == |ws| - 1
  {
    var m := Reach(k, wd, ws, 0);
    assert TailAt(k, wd, ws, 0).skipped == 0;
    if m > 0 { OneSkipped(k, wd, ws, m); }
    OneSkipped(k, wd, ws, |ws| - 1);
  }
}
