/**
 Backward seeks while the unread bytes wrap: the underlying handler stores at most a chunk past b,
 so what lies further on, up to a, is still what left the ring last.
 */
module RingWrap {
  import opened RingProtocol
  import opened RingSafety

  /** From a chunk past b up to a nothing has been overwritten. */
  ghost predicate Far(r: Ring, passed: seq<Byte>, chunk: nat) {
    !r.empty && r.b + chunk <= r.a ==> r.Intact(passed, r.a - r.b - chunk)
  }

  ghost predicate WrapInv(s: State) {
    && Far(s.ring, s.past.passed, s.cfg.maxChunkSize)
    && (s.producer.Filling? ==> s.producer.chunk <= s.cfg.maxChunkSize)
  }

  lemma FewerIntact(r: Ring, passed: seq<Byte>, n: nat, m: nat)
    requires r.Intact(passed, n) && m <= n
    ensures r.Intact(passed, m)
  {
    assert r.buffer[r.a - m..r.a] == r.buffer[r.a - n..r.a][n - m..];
    assert passed[|passed| - m..] == passed[|passed| - n..][n - m..];
  }

  /** So a backward distance that stays a chunk away from b is handled. */
  lemma FarIsIntact(r: Ring, passed: seq<Byte>, chunk: nat, rel: int)
    requires r.Valid() && !r.empty && 0 < chunk && Far(r, passed, chunk) && rel < 0 && r.b + chunk <= r.a + rel
    ensures r.Handles(rel, passed)
  {
    FewerIntact(r, passed, r.a - r.b - chunk, -rel);
  }

  // ----- what moves a and b -----

  lemma AdvanceFar(r: Ring, passed: seq<Byte>, chunk: nat, n: nat)
    requires r.Valid() && 0 < chunk && Far(r, passed, chunk) && 1 <= n <= r.Fill()
    ensures Far(r.Advance(n), passed + r.Contents()[..n], chunk)
  {
    var r' := r.Advance(n);
    if !r'.empty && r'.b + chunk <= r'.a {
      assert r.b <= r.a && r'.a == r.a + n;
      FrontOfWrapped(r, n);
      AdvancedIntact(r, passed, r.Contents()[..n], if r.b + chunk <= r.a then r.a - r.b - chunk else 0, n,
                     r'.a - r.b - chunk);
    }
  }

  lemma FrontOfWrapped(r: Ring, n: nat)
    requires r.Valid() && !r.empty && r.b <= r.a && r.a + n < r.Size()
    ensures n <= |r.Contents()| && r.Contents()[..n] == r.buffer[r.a..r.a + n]
  {
  }

  /** n bytes that have just left the ring join the k intact ones before them. */
  lemma AdvancedIntact(r: Ring, passed: seq<Byte>, c: seq<Byte>, k: nat, n: nat, m: nat)
    requires r.a + n <= r.Size() && r.Intact(passed, k) && c == r.buffer[r.a..r.a + n] && m <= k + n
    ensures r.(a := r.a + n).Intact(passed + c, m)
  {
    var r', more := r.(a := r.a + n), passed + c;
    assert r.buffer[r.a - k..r.a + n] == r.buffer[r.a - k..r.a] + c;
    assert more[|more| - (k + n)..] == passed[|passed| - k..] + c;
    assert r'.Intact(more, k + n);
    FewerIntact(r', more, k + n, m);
  }

  lemma ReturnFar(r: Ring, passed: seq<Byte>, chunk: nat, rel: int)
    requires r.Valid() && !r.empty && Far(r, passed, chunk) && rel < 0 && r.Handles(rel, passed)
    ensures Far(r.Skip(rel), passed[..|passed| + rel], chunk)
  {
    SkipReturns(r, rel, passed);
    hide Ring.Skip;
    if r.b + chunk <= r.a + rel {
      FirstIntact(r, passed, r.a - r.b - chunk, -rel);
    }
  }

  /** The n intact bytes without the last d of them. */
  lemma FirstIntact(r: Ring, passed: seq<Byte>, n: nat, d: nat)
    requires r.Intact(passed, n) && d <= n
    ensures r.(a := r.a - d).Intact(passed[..|passed| - d], n - d)
  {
    Shorter(r.buffer, r.a - n, r.a - d, r.a);
    Shorter(passed, |passed| - n, |passed| - d, |passed|);
    assert passed[|passed| - n..|passed|] == passed[|passed| - n..];
    assert passed[..|passed| - d][|passed| - n..] == passed[|passed| - n..|passed| - d];
  }

  lemma Shorter(s: seq<Byte>, lo: nat, hi: nat, top: nat)
    requires lo <= hi <= top <= |s|
    ensures s[lo..hi] == s[lo..top][..hi - lo]
  {
  }

  lemma SkipFar(r: Ring, passed: seq<Byte>, chunk: nat, rel: int)
    requires r.Valid() && !r.empty && 0 < chunk && Far(r, passed, chunk)
    requires rel <= r.Fill() && r.Handles(rel, passed)
    ensures Far(r.Skip(rel), PassedAfter(r, passed, rel), chunk)
  {
    if rel < 0 {
      ReturnFar(r, passed, chunk, rel);
    } else if rel == 0 {
      SkipIndex(r, 0);
      assert passed + r.Contents()[..0] == passed;
    } else {
      SkipIsReadAndDiscard(r, rel);
      AdvanceFar(r, passed, chunk, rel);
    }
  }

  lemma StoreFar(r: Ring, passed: seq<Byte>, chunk: nat, offset: nat, x: Byte)
    requires Far(r, passed, chunk) && offset < chunk && r.b + offset < r.Size()
    ensures Far(r.Store(r.b + offset, x), passed, chunk)
  {
    if !r.empty && r.b + chunk <= r.a {
      var k := r.a - r.b - chunk;
      if r.a <= r.Size() { assert r.Store(r.b + offset, x).buffer[r.a - k..r.a] == r.buffer[r.a - k..r.a]; }
    }
  }

  lemma AppendFar(r: Ring, passed: seq<Byte>, chunk: nat, n: nat)
    requires r.Valid() && Behind(r, passed) && Far(r, passed, chunk) && ChunkClear(r, n)
    ensures Far(r.Append(n), passed, chunk)
  {
    hide Ring.Intact;
    var r' := r.Append(n);
    if r'.b + chunk <= r'.a {
      var m := r'.a - r'.b - chunk;
      FewerIntact(r, passed, if r.empty || r.a < r.b then r.a else r.a - r.b - chunk, m);
      SameIntact(r, r', passed, m);
    }
  }

  lemma SameIntact(r: Ring, r': Ring, passed: seq<Byte>, n: nat)
    requires r'.buffer == r.buffer && r'.a == r.a && r.Intact(passed, n)
    ensures r'.Intact(passed, n)
  {
  }

  // ----- steps -----

  lemma TopKeepsWrap(s: State, throws: bool)
    requires RingInv(s) && WrapInv(s) && s.producer.Top? && SoundSeek(s)
    ensures WrapInv(TopStep(s, throws))
  {
    var s0 := s.(ring := s.ring.ResetIfEmpty());
    if InBuffer(s0) { SkipFar(s0.ring, s0.past.passed, s0.cfg.maxChunkSize, RelSeek(s0.seek, s0.posRead)); }
    hide Ring.Skip, PassedAfter, RelSeek, Behind, Ring.Contents;
  }

  lemma CommitKeepsWrap(s: State, result: ReadResult)
    requires RingInv(s) && WrapInv(s) && s.producer.Filling? && (result.Bytes? ==> 1 <= result.n <= s.producer.chunk)
    ensures WrapInv(CommitStep(s, result))
  {
    hide Behind, Ring.Contents, Far;
    if result.Bytes? {
      assert ChunkClear(s.ring, result.n);
      AppendFar(s.ring, s.past.passed, s.cfg.maxChunkSize, result.n);
    }
  }

  lemma FillingKeepsWrap(s: State, s': State)
    requires RingInv(s) && WrapInv(s) && s.producer.Filling? && ProducerMoves(s, s')
    ensures WrapInv(s')
  {
    hide CommitStep;
    var chunk := s.producer.chunk;
    if offset: nat, x :| offset < chunk && s.ring.b + offset < s.ring.Size() && s' == StoreStep(s, offset, x) {
      StoreFar(s.ring, s.past.passed, s.cfg.maxChunkSize, offset, x);
    } else {
      var result: ReadResult :| (result.Bytes? ==> 1 <= result.n <= chunk) && s' == CommitStep(s, result);
      CommitKeepsWrap(s, result);
    }
  }

  lemma ProducerKeepsWrap(s: State, s': State)
    requires RingInv(s) && WrapInv(s) && ProducerMoves(s, s')
    ensures WrapInv(s')
  {
    hide RingInv, Far;
    if s.producer.Top? {
      var throws :| s' == TopStep(s, throws);
      TopKeepsWrap(s, throws);
    } else if s.producer.Filling? {
      FillingKeepsWrap(s, s');
    }
  }

  lemma EndReadKeepsWrap(s: State)
    requires RingInv(s) && WrapInv(s) && s.reader.Copying? && |s.reader.out| >= s.reader.count
    ensures WrapInv(EndReadStep(s))
  {
    var n := s.reader.count;
    assert s.reader.out == s.ring.Contents()[..n];
    AdvanceFar(s.ring, s.past.passed, s.cfg.maxChunkSize, n);
    hide Behind, Ring.Contents, Far;
  }

  lemma ReaderLeavesRing(s: State, s': State)
    requires ReaderMoves(s, s') && !(s.reader.Copying? && |s.reader.out| >= s.reader.count)
    ensures s'.ring == s.ring && s'.past == s.past && s'.cfg == s.cfg
    ensures s'.producer.Filling? ==> s'.producer == s.producer
  {
    hide Ring.ReadSizes, Ring.Contents, EndReadStep;
  }

  lemma ReaderKeepsWrap(s: State, s': State)
    requires RingInv(s) && WrapInv(s) && ReaderMoves(s, s')
    ensures WrapInv(s')
  {
    hide RingInv, Far, EndReadStep;
    if s.reader.Copying? && |s.reader.out| >= s.reader.count {
      EndReadKeepsWrap(s);
    } else {
      ReaderLeavesRing(s, s');
    }
  }

  lemma {:induction false} RunsKeepWrap(run: seq<State>, n: nat)
    requires RingBehaviour(run) && n < |run|
    ensures WrapInv(run[n])
  {
    hide RingInv, WrapInv, RingStep, InitialRing;
    if n == 0 {
      InitialWrap(run[0]);
    } else {
      RunsKeepRing(run, n - 1);
      RunsKeepWrap(run, n - 1);
      assert RingStep(run[n - 1], run[n - 1 + 1]);
      StepKeepsWrap(run[n - 1], run[n]);
    }
  }

  lemma InitialWrap(s: State)
    requires InitialRing(s)
    ensures WrapInv(s)
  {
  }

  lemma StepKeepsWrap(s: State, s': State)
    requires RingInv(s) && WrapInv(s) && RingStep(s, s')
    ensures WrapInv(s')
  {
    hide RingInv, WrapInv;
    if ProducerMoves(s, s') { ProducerKeepsWrap(s, s'); } else { ReaderKeepsWrap(s, s'); }
  }

  /** The backward distances a caller can rely on, by the indices alone: inside the buffer while the unread
      bytes do not wrap, and a chunk away from b when they do. */
  lemma BackwardSeekLands(run: seq<State>, n: nat)
    requires RingBehaviour(run) && n < |run| && InBuffer(run[n])
    requires var r, rel := run[n].ring, RelSeek(run[n].seek, run[n].posRead);
             rel < 0 && 0 <= r.a + rel && (r.a < r.b || r.b + run[n].cfg.maxChunkSize <= r.a + rel)
    ensures SoundSeek(run[n])
    ensures var s := run[n]; s.ring.Valid() && Landed(s.ring, s.past.passed, RelSeek(s.seek, s.posRead))
  {
    var s := run[n];
    var r, rel := s.ring, RelSeek(s.seek, s.posRead);
    RunsKeepRing(run, n);
    RunsKeepWrap(run, n);
    if r.a < r.b {
      BehindIsIntact(r, s.past.passed, rel);
    } else {
      FarIsIntact(r, s.past.passed, s.cfg.maxChunkSize, rel);
    }
    SkipLandsExactly(r, s.past.passed, rel);
  }
}
