/**
 The ring under every interleaving: it is a FIFO between the underlying handler and the
 reader, the unlocked fill never touches unread bytes, and the two threads never both sleep.
 */
module RingSafety {
  import opened RingProtocol

  // ----- the ring as a queue -----

  /** A chunk at b inside the buffer and clear of unread bytes. */
  ghost predicate ChunkClear(r: Ring, chunk: nat) {
    && 1 <= chunk && r.b + chunk <= r.Size()
    && (!r.empty ==> r.a != r.b && (r.b < r.a ==> r.b + chunk <= r.a))
  }

  /** Committing n bytes at b appends them. */
  lemma AppendContents(r: Ring, n: nat)
    requires r.Valid() && ChunkClear(r, n)
    ensures r.Append(n).Valid() && r.Append(n).Contents() == r.Contents() + r.buffer[r.b..r.b + n]
    ensures !r.Append(n).empty
  {
    if !r.empty && r.a > r.b {
      assert r.buffer[..r.b + n] == r.buffer[..r.b] + r.buffer[r.b..r.b + n];
    }
  }

  /** Advancing a by n removes the first n bytes. */
  lemma AdvanceContents(r: Ring, n: nat)
    requires r.Valid() && 1 <= n <= r.Fill()
    ensures r.Advance(n).Valid() && r.Advance(n).Contents() == r.Contents()[n..]
    ensures r.Advance(n).a == r.Advance(n).b <==> r.Advance(n).empty
  {
    var c, c' := r.Contents(), r.Advance(n).Contents();
    assert |c'| == |c| - n;
    forall i | 0 <= i < |c'| ensures c'[i] == c[n + i] {
      assert Wrap(r.Advance(n).a + i, r.Size()) == Wrap(r.a + (n + i), r.Size());
    }
    hide Ring.Contents;
    assert c' == c[n..];
  }

  lemma AdvanceKeepsChunk(r: Ring, n: nat, chunk: nat)
    requires r.Valid() && 1 <= n <= r.Fill() && ChunkClear(r, chunk)
    ensures ChunkClear(r.Advance(n), chunk)
  {
  }

  lemma ChunkAvoidsUnread(r: Ring, chunk: nat, i: nat)
    requires r.Valid() && ChunkClear(r, chunk) && i < r.Fill()
    ensures !(r.b <= Wrap(r.a + i, r.Size()) < r.b + chunk)
  {
  }

  lemma StoreKeepsContents(r: Ring, chunk: nat, offset: nat, x: Byte)
    requires r.Valid() && ChunkClear(r, chunk) && offset < chunk
    ensures r.Store(r.b + offset, x).Valid() && r.Store(r.b + offset, x).Contents() == r.Contents()
  {
    var r' := r.Store(r.b + offset, x);
    forall i | 0 <= i < r.Fill() ensures r'.Contents()[i] == r.Contents()[i] {
      ChunkAvoidsUnread(r, chunk, i);
    }
  }

  /** The buffer thread waits exactly when the ring is full, else it gets a clear chunk. */
  lemma WaitsExactlyWhenFull(r: Ring)
    requires r.Valid()
    ensures r.MaxWrite() <= 0 <==> r.Full()
    ensures r.Full() <==> r.Fill() == r.Size()
    ensures !r.Full() && (r.empty ==> r.b == 0) ==>
              forall chunk: nat :: 1 <= chunk <= r.MaxWrite() ==> ChunkClear(r, chunk)
  {
  }

  lemma ResetContents(r: Ring)
    requires r.Valid()
    ensures r.ResetIfEmpty().Valid() && r.ResetIfEmpty().Contents() == r.Contents()
    ensures r.ResetIfEmpty().Fill() == r.Fill() && (r.empty ==> r.ResetIfEmpty().b == 0)
    ensures r.ResetIfEmpty().Full() == r.Full() && r.ResetIfEmpty().empty == r.empty
  {
  }

  /** The same as reading and discarding, but for the indices of an emptied ring. */
  lemma SkipIsReadAndDiscard(r: Ring, rel: nat)
    requires r.Valid() && 1 <= rel <= r.Fill()
    ensures r.Skip(rel) == r.Advance(rel).ResetIfEmpty()
  {
    assert (r.a + rel) % SIZE_RANGE == r.a + rel;
  }

  /** An in-buffer seek of distance rel, 1 <= rel <= fill, discards rel bytes, for every wrap
      position and for rel == fill on a full ring. */
  lemma SkipDiscards(r: Ring, rel: int)
    requires r.Valid() && 0 <= rel <= r.Fill() && !r.empty && (rel == 0 ==> !r.Full())
    ensures r.Skip(rel).Valid() && r.Skip(rel).Contents() == r.Contents()[rel..]
    ensures r.Skip(rel).empty ==> r.Skip(rel).b == 0
  {
    if rel == 0 {
      assert (r.a + rel) % SIZE_RANGE == r.a;
      assert r.Skip(rel) == r;
    } else {
      SkipIsReadAndDiscard(r, rel);
      AdvanceContents(r, rel);
      ResetContents(r.Advance(rel));
    }
  }

  /** Exactly when an in-buffer seek keeps posRead + fill, the stream position of the ring's end,
      with both indices in the buffer: every forward distance but 0 on a full ring, and a backward
      one that neither underruns the buffer nor reaches b. */
  lemma SkipKeepsEnd(r: Ring, rel: int)
    requires r.Valid() && !r.empty && rel <= r.Fill() && -INT_RANGE < rel
    ensures (r.Skip(rel).Valid() && rel + r.Skip(rel).Fill() == r.Fill()) <==>
            (|| 0 < rel
             || (rel == 0 && !r.Full())
             || (rel < 0 && 0 <= r.a + rel && (r.a < r.b || r.b < r.a + rel)))
  {
    if 0 <= r.a + rel {
      assert (r.a + rel) % SIZE_RANGE == r.a + rel;
    } else {
      assert (r.a + rel) % SIZE_RANGE == r.a + rel + SIZE_RANGE;
    }
  }

  /** No wrap-around of size_t: the index after the move. */
  lemma SkipIndex(r: Ring, rel: int)
    requires 0 <= r.a + rel < SIZE_RANGE
    ensures var sum := r.a + rel;
            var a' := if sum >= r.Size() then sum - r.Size() else sum;
            r.Skip(rel) == if a' == r.b then r.(empty := true, a := 0, b := 0) else r.(a := a')
  {
    assert (r.a + rel) % SIZE_RANGE == r.a + rel;
  }

  /** Moving a back over intact bytes puts them in front of the unread ones again. */
  lemma SkipReturns(r: Ring, rel: int, passed: seq<Byte>)
    requires r.Valid() && !r.empty && rel < 0 && r.Handles(rel, passed)
    ensures r.Skip(rel) == r.(a := r.a + rel) && r.Skip(rel).Valid() && !r.Skip(rel).Full()
    ensures r.Skip(rel).Contents() == passed[|passed| + rel..] + r.Contents()
  {
    SkipIndex(r, rel);
    hide Ring.Skip;
    MoreInFront(r, -rel);
  }

  lemma MoreInFront(r: Ring, n: nat)
    requires r.Valid() && !r.empty && n <= r.a && (r.a < r.b || r.b < r.a - n)
    ensures r.(a := r.a - n).Contents() == r.buffer[r.a - n..r.a] + r.Contents()
  {
    if r.a < r.b {
      assert r.buffer[r.a - n..r.b] == r.buffer[r.a - n..r.a] + r.buffer[r.a..r.b];
    } else {
      assert r.buffer[r.a - n..] == r.buffer[r.a - n..r.a] + r.buffer[r.a..];
    }
  }

  lemma HandledIsValid(r: Ring, rel: int, passed: seq<Byte>)
    requires r.Valid() && !r.empty && rel <= r.Fill()
    ensures r.Handles(rel, passed) ==> r.Skip(rel).Valid()
  {
    if r.Handles(rel, passed) {
      if rel < 0 { SkipReturns(r, rel, passed); } else { SkipDiscards(r, rel); }
    }
  }

  /** After a move of a by rel the ring holds the stream from there on. */
  ghost predicate Landed(r: Ring, passed: seq<Byte>, rel: int)
    requires r.Valid()
  {
    var stream := passed + r.Contents();
    r.Skip(rel).Valid() && 0 <= |passed| + rel <= |stream| && r.Skip(rel).Contents() == stream[|passed| + rel..]
  }

  /** Exactly when an in-buffer seek is right, the bytes included: forward, 0 unless the ring is full, and
      backward if a does not underrun or reach b and the bytes it goes back over are still there. */
  lemma SkipLandsExactly(r: Ring, passed: seq<Byte>, rel: int)
    requires r.Valid() && !r.empty && rel <= r.Fill() && -INT_RANGE < rel && r.a <= |passed|
    ensures Landed(r, passed, rel) <==> r.Handles(rel, passed)
  {
    hide Ring.Skip, Ring.Contents;
    var stream := passed + r.Contents();
    if 0 <= rel {
      assert stream[|passed| + rel..] == r.Contents()[rel..];
      if rel == 0 && r.Full() { ZeroSeekEmptiesFullRing(r); } else { SkipDiscards(r, rel); }
    } else if r.a + rel < 0 {
      BackwardSeekUnderruns(r, rel);
    } else if r.Handles(rel, passed) {
      SkipReturns(r, rel, passed);
      assert stream[|passed| + rel..] == passed[|passed| + rel..] + r.Contents();
    } else if r.a < r.b || r.b < r.a + rel {
      SkipFindsOthers(r, passed, rel, -rel);
    } else {
      SkipLosesBytes(r, passed, rel);
    }
  }

  lemma FrontDiffers(x: seq<Byte>, y: seq<Byte>, c: seq<Byte>)
    requires |x| == |y| && x != y
    ensures x + c != y + c
  {
    assert (x + c)[..|x|] == x && (y + c)[..|y|] == y;
  }

  /** The bytes gone back over have been overwritten. */
  lemma SkipFindsOthers(r: Ring, passed: seq<Byte>, rel: int, n: nat)
    requires r.Valid() && !r.empty && 0 < n <= r.a <= |passed| && rel == 0 - n
    requires (r.a < r.b || r.b < r.a - n) && !r.Intact(passed, n)
    ensures !Landed(r, passed, rel)
  {
    SkipIndex(r, rel);
    MoreInFront(r, n);
    hide Ring.Skip, Ring.Contents;
    StreamFrom(passed, r.Contents(), n);
    FrontDiffers(r.buffer[r.a - n..r.a], passed[|passed| - n..], r.Contents());
  }

  lemma StreamFrom(passed: seq<Byte>, c: seq<Byte>, n: nat)
    requires n <= |passed|
    ensures (passed + c)[|passed| - n..] == passed[|passed| - n..] + c
  {
  }

  /** Going back to b or past it loses bytes. */
  lemma SkipLosesBytes(r: Ring, passed: seq<Byte>, rel: int)
    requires r.Valid() && !r.empty && rel < 0 && 0 <= r.a + rel <= r.b <= r.a <= |passed|
    ensures !Landed(r, passed, rel)
  {
    SkipIndex(r, rel);
    hide Ring.Skip, Ring.Contents;
    assert |(passed + r.Contents())[|passed| + rel..]| == r.Fill() - rel;
  }

  /** The distance a seek asks for. */
  function Distance(seek: Seek, posRead: int): int
    requires seek.Seek?
  {
    if seek.whence.SeekSet? then seek.offset - posRead else seek.offset
  }

  lemma ToIntShift(x: int)
    ensures exists q :: ToInt(x) == x - q * INT_RANGE
    ensures -INT_MAX - 1 <= ToInt(x) <= INT_MAX
  {
    var q := x / INT_RANGE;
    assert x == q * INT_RANGE + x % INT_RANGE;
    if x % INT_RANGE > INT_MAX { assert ToInt(x) == x - (q + 1) * INT_RANGE; }
  }

  lemma ToIntUnique(x: int, y: int, q: int)
    requires x == y + q * INT_RANGE && -INT_MAX - 1 <= y <= INT_MAX
    ensures ToInt(x) == y
  {
    var m := if y < 0 then y + INT_RANGE else y;
    var k := if y < 0 then q - 1 else q;
    assert x == k * INT_RANGE + m && 0 <= m < INT_RANGE;
    assert x % INT_RANGE == m;
  }

  /** The distance computed in int is the one asked for exactly when that one fits an int, although
      the offset is narrowed before posRead is subtracted. */
  lemma RelSeekExact(seek: Seek, posRead: int)
    requires seek.Seek?
    ensures RelSeek(seek, posRead) == Distance(seek, posRead) <==> -INT_MAX - 1 <= Distance(seek, posRead) <= INT_MAX
  {
    var d := Distance(seek, posRead);
    if seek.whence.SeekSet? {
      ToIntShift(seek.offset);
      var q :| ToInt(seek.offset) == seek.offset - q * INT_RANGE;
      ToIntShift(ToInt(seek.offset) - posRead);
      if -INT_MAX - 1 <= d <= INT_MAX { ToIntUnique(ToInt(seek.offset) - posRead, d, -q); }
    } else {
      ToIntShift(seek.offset);
      if -INT_MAX - 1 <= d <= INT_MAX { ToIntUnique(seek.offset, d, 0); }
    }
  }

  /** A seek of distance d into the unread bytes is served from the buffer and lands: d bytes are
      dropped, posRead moves by d, and the end of the ring keeps its place in the stream. */
  lemma SeekLands(s: State, throws: bool)
    requires s.ring.Valid() && s.seek.Seek? && !s.seek.whence.SeekEnd?
    requires 1 <= Distance(s.seek, s.posRead) <= s.ring.Fill()
    ensures var d, s' := Distance(s.seek, s.posRead), ProcessSeek(s, throws);
            && s'.ring.Valid() && s'.ring.Contents() == s.ring.Contents()[d..]
            && s'.posRead == s.posRead + d && s'.posRead + s'.ring.Fill() == s.posRead + s.ring.Fill()
            && s'.seek.NoSeek? && s'.past.delivered == s.past.delivered
  {
    RelSeekExact(s.seek, s.posRead);
    SkipDiscards(s.ring, Distance(s.seek, s.posRead));
  }

  /** A seek of distance 0 empties a full ring. */
  lemma ZeroSeekEmptiesFullRing(r: Ring)
    requires r.Valid() && r.Full()
    ensures r.Skip(0).empty && r.Contents() != [] && r.Skip(0).Contents() == []
  {
    assert (r.a + 0) % SIZE_RANGE == r.a;
  }

  /** A backward seek past the start of the buffer leaves the index far outside it. */
  lemma BackwardSeekUnderruns(r: Ring, rel: int)
    requires r.Valid() && !r.empty && r.a + rel < 0 && -INT_RANGE < rel
    ensures r.Skip(rel).a >= r.Size() && !r.Skip(rel).Valid()
  {
    assert (r.a + rel) % SIZE_RANGE == r.a + rel + SIZE_RANGE;
  }

  // ----- the bytes in front of a -----

  /** While the unread bytes do not wrap, everything in front of a is what left the ring last. */
  ghost predicate Behind(r: Ring, passed: seq<Byte>) {
    r.a <= |passed| && (r.empty || r.a < r.b ==> r.Intact(passed, r.a))
  }

  /** So every backward distance inside the buffer is handled then. */
  lemma BehindIsIntact(r: Ring, passed: seq<Byte>, rel: int)
    requires r.Valid() && !r.empty && Behind(r, passed) && r.a < r.b && rel < 0 && 0 <= r.a + rel
    ensures r.Handles(rel, passed)
  {
    assert r.buffer[..r.a][r.a + rel..] == r.buffer[r.a + rel..r.a];
    assert passed[|passed| - r.a..][r.a + rel..] == passed[|passed| + rel..];
  }

  lemma AdvanceBehind(r: Ring, passed: seq<Byte>, n: nat)
    requires r.Valid() && Behind(r, passed) && 1 <= n <= r.Fill()
    ensures Behind(r.Advance(n), passed + r.Contents()[..n])
  {
    if r.a < r.b {
      FrontOf(r.buffer, r.a, r.b, n);
      AdvanceStraight(r, passed, n, r.Contents()[..n]);
    } else if r.a + n >= r.Size() {
      AdvanceAround(r, passed, n);
    }
  }

  lemma AdvanceStraight(r: Ring, passed: seq<Byte>, n: nat, c: seq<Byte>)
    requires r.a + n <= |r.buffer| && r.Intact(passed, r.a) && c == r.buffer[r.a..r.a + n]
    ensures r.(a := r.a + n).Intact(passed + c, r.a + n)
  {
    hide Ring.Intact;
    AllIntact(r, passed);
    MoreIntact(r.buffer, r.a, n, passed, passed + c);
    AllIntact(r.(a := r.a + n), passed + c);
  }

  lemma AllIntact(r: Ring, passed: seq<Byte>)
    ensures r.Intact(passed, r.a) <==>
            r.a <= r.Size() && r.a <= |passed| && r.buffer[..r.a] == passed[|passed| - r.a..]
  {
    if r.a <= r.Size() { assert r.buffer[r.a - r.a..r.a] == r.buffer[..r.a]; }
  }

  lemma MoreIntact(buffer: seq<Byte>, a: nat, n: nat, passed: seq<Byte>, more: seq<Byte>)
    requires a + n <= |buffer| && a <= |passed| && buffer[..a] == passed[|passed| - a..]
    requires more == passed + buffer[a..a + n]
    ensures |more| == |passed| + n && buffer[..a + n] == more[|more| - (a + n)..]
  {
    assert more[|more| - (a + n)..] == passed[|passed| - a..] + buffer[a..a + n];
  }

  lemma FrontOf(buffer: seq<Byte>, a: nat, b: nat, n: nat)
    requires a + n <= b <= |buffer|
    ensures buffer[a..b][..n] == buffer[a..a + n] && buffer[..a + n] == buffer[..a] + buffer[a..a + n]
  {
  }

  lemma AdvanceAround(r: Ring, passed: seq<Byte>, n: nat)
    requires r.Valid() && !r.empty && r.b <= r.a && r.Size() <= r.a + n <= r.Size() + r.b
    ensures r.Advance(n).Intact(passed + r.Contents()[..n], r.a + n - r.Size())
  {
    var c, m := r.Contents()[..n], r.a + n - r.Size();
    assert c[n - m..] == r.buffer[..m];
    assert (passed + c)[|passed| + n - m..] == c[n - m..];
  }

  lemma ReturnBehind(r: Ring, passed: seq<Byte>, rel: int)
    requires r.Valid() && !r.empty && Behind(r, passed) && rel < 0 && r.Handles(rel, passed)
    ensures Behind(r.Skip(rel), passed[..|passed| + rel])
  {
    SkipReturns(r, rel, passed);
    hide Ring.Skip;
    var r', passed' := r.Skip(rel), passed[..|passed| + rel];
    if r.a < r.b {
      assert r.buffer[..r.a][..r'.a] == r.buffer[..r'.a];
      assert passed[|passed| - r.a..][..r'.a] == passed'[|passed'| - r'.a..];
    }
  }

  lemma SkipBehind(r: Ring, passed: seq<Byte>, rel: nat)
    requires r.Valid() && Behind(r, passed) && 1 <= rel <= r.Fill()
    ensures Behind(r.Skip(rel), passed + r.Contents()[..rel])
  {
    SkipIsReadAndDiscard(r, rel);
    AdvanceBehind(r, passed, rel);
  }

  lemma StoreBehind(r: Ring, passed: seq<Byte>, chunk: nat, offset: nat, x: Byte)
    requires r.Valid() && Behind(r, passed) && ChunkClear(r, chunk) && offset < chunk
    ensures Behind(r.Store(r.b + offset, x), passed)
  {
    var r' := r.Store(r.b + offset, x);
    if r.empty || r.a < r.b { assert r'.buffer[..r.a] == r.buffer[..r.a]; }
  }

  lemma AppendBehind(r: Ring, passed: seq<Byte>, n: nat)
    requires r.Valid() && Behind(r, passed) && ChunkClear(r, n)
    ensures Behind(r.Append(n), passed)
  {
  }

  // ----- the invariant -----

  ghost predicate QueueOk(s: State) {
    && s.ring.Valid() && 0 < s.cfg.maxChunkSize && s.cfg.initialFillSize <= s.ring.Size()
    && s.past.passed + s.ring.Contents() == s.past.delivered
    && Behind(s.ring, s.past.passed)
  }

  ghost predicate ProducerOk(s: State) {
    && (s.producer.Start? ==> s.ring.empty)
    && (s.producer.Top? && s.flags.threadShutdown ==> s.ring.empty)
    && (s.producer.Filling? ==> ChunkClear(s.ring, s.producer.chunk))
    && (s.producer.Asleep? ==> s.ring.Full() && s.seek.NoSeek? && !s.flags.threadShutdown)
    && (s.producer.Finished? ==> s.flags.Over())
    && (s.flags.eof || s.flags.readError ==> s.producer.Finished?)
  }

  ghost predicate ReaderOk(s: State)
    requires s.ring.Valid()
  {
    && (s.reader.ReadAsleep? ==> (s.ring.empty || s.gate) && !s.flags.Over() && !s.flags.checkSocket)
    && (s.reader.ReadAsleep? || s.reader.ReadWoken? ==> 0 < s.reader.length)
    && (s.reader.SeekAsleep? ==> s.seek.Seek? && !s.flags.Over())
    && (s.seek.Seek? ==> s.reader.SeekAsleep? || s.reader.SeekWoken? || s.flags.Over())
    && (s.reader.Copying? ==>
          && 1 <= s.reader.count <= s.ring.Fill() && |s.reader.out| <= s.reader.count
          && s.reader.out <= s.ring.Contents()
          && !s.flags.threadShutdown && (s.seek.Seek? ==> s.producer.Finished?))
  }

  ghost predicate RingInv(s: State) {
    QueueOk(s) && ProducerOk(s) && ReaderOk(s)
  }

  lemma RingIsValid(s: State)
    requires QueueOk(s)
    ensures s.ring.Valid()
  {
  }

  // ----- steps of the buffer thread -----

  lemma ResetKeeps(s: State)
    requires RingInv(s) && s.producer.Top?
    ensures var s' := s.(ring := s.ring.ResetIfEmpty());
            RingInv(s') && (s'.ring.empty ==> s'.ring.b == 0) && (SoundSeek(s) ==> SoundSeek(s'))
            && (InBuffer(s) <==> InBuffer(s'))
  {
    ResetContents(s.ring);
  }

  lemma MovePassed(passed: seq<Byte>, c: seq<Byte>, n: nat)
    requires n <= |c|
    ensures (passed + c[..n]) + c[n..] == passed + c
  {
    assert c[..n] + c[n..] == c;
  }

  lemma SeekInBufferKeeps(s: State, rel: int)
    requires RingInv(s) && s.producer.Top? && s.seek.Seek? && !s.ring.empty
    requires rel <= s.ring.Fill() && s.ring.Handles(rel, s.past.passed)
    ensures var s' := SeekInBuffer(s, rel);
            RingInv(s') && s'.seek.NoSeek? && s'.producer.Top? && (s'.ring.empty ==> s'.ring.b == 0)
  {
    var passed := PassedAfter(s.ring, s.past.passed, rel);
    if rel < 0 { SkipBackPassed(s.ring, s.past.passed, rel); } else { SkipAheadPassed(s.ring, s.past.passed, rel); }
    hide Ring.Skip, PassedAfter;
    SkippedKeeps(s, rel, s.ring.Skip(rel), passed, SeekInBuffer(s, rel));
  }

  /** The ring after the move and what has left it are the same stream, parted elsewhere. */
  ghost predicate Reparted(r: Ring, passed: seq<Byte>, rel: int)
    requires r.Valid()
  {
    var r', passed' := r.Skip(rel), PassedAfter(r, passed, rel);
    && r'.Valid() && r'.Size() == r.Size() && Behind(r', passed') && (r'.empty ==> r'.b == 0)
    && passed' + r'.Contents() == passed + r.Contents()
  }

  lemma SkipBackPassed(r: Ring, passed: seq<Byte>, rel: int)
    requires r.Valid() && !r.empty && Behind(r, passed) && rel < 0 && r.Handles(rel, passed)
    ensures Reparted(r, passed, rel)
  {
    hide Ring.Skip, Ring.Contents, Behind;
    SkipReturns(r, rel, passed);
    ReturnBehind(r, passed, rel);
    assert passed == passed[..|passed| + rel] + passed[|passed| + rel..];
  }

  lemma SkipAheadPassed(r: Ring, passed: seq<Byte>, rel: nat)
    requires r.Valid() && !r.empty && Behind(r, passed) && rel <= r.Fill() && r.Handles(rel, passed)
    ensures Reparted(r, passed, rel)
  {
    SkipDiscards(r, rel);
    MovePassed(passed, r.Contents(), rel);
    if rel == 0 {
      SkipIndex(r, 0);
      assert passed + r.Contents()[..0] == passed;
    } else {
      SkipBehind(r, passed, rel);
    }
  }

  /** Any ring r that holds the rest of the stream will do. */
  lemma SkippedKeeps(s: State, rel: int, r: Ring, passed: seq<Byte>, s': State)
    requires RingInv(s) && s.producer.Top? && s.seek.Seek? && !s.flags.threadShutdown
    requires r.Valid() && r.Size() == s.ring.Size() && Behind(r, passed)
    requires passed + r.Contents() == s.past.delivered
    requires s' == Signal(s.(ring := r, posRead := s.posRead + rel, seek := NoSeek,
                             past := s.past.(passed := passed)))
    ensures RingInv(s') && s'.seek.NoSeek? && s'.producer.Top? && s'.ring == r
  {
  }

  lemma SeekUnderlyingKeeps(s: State, throws: bool)
    requires RingInv(s) && s.producer.Top? && s.seek.Seek?
    requires s.ring.empty ==> s.ring.b == 0
    ensures var s' := SeekUnderlying(s, throws);
            RingInv(s') && s'.seek.NoSeek? && s'.producer.Top? && (s'.ring.empty ==> s'.ring.b == 0)
  {
  }

  lemma DecideKeeps(s: State)
    requires RingInv(s) && s.producer.Top? && s.seek.NoSeek? && (s.ring.empty ==> s.ring.b == 0)
    ensures RingInv(Decide(s)) && (Decide(s).producer.Asleep? <==> s.ring.Full())
  {
    WaitsExactlyWhenFull(s.ring);
  }

  lemma TopKeeps(s: State, throws: bool)
    requires RingInv(s) && s.producer.Top? && SoundSeek(s)
    ensures RingInv(TopStep(s, throws))
  {
    ResetKeeps(s);
    var s0 := s.(ring := s.ring.ResetIfEmpty());
    if InBuffer(s0) {
      SeekInBufferKeeps(s0, RelSeek(s0.seek, s0.posRead));
    } else if s0.seek.Seek? {
      SeekUnderlyingKeeps(s0, throws);
    }
    DecideKeeps(ProcessSeek(s0, throws));
  }

  lemma StoreKeeps(s: State, offset: nat, x: Byte)
    requires RingInv(s) && s.producer.Filling? && offset < s.producer.chunk
    ensures s.ring.b + offset < s.ring.Size() && RingInv(StoreStep(s, offset, x))
  {
    StoreKeepsContents(s.ring, s.producer.chunk, offset, x);
    StoreBehind(s.ring, s.past.passed, s.producer.chunk, offset, x);
  }

  /** Between the commit and the end of the loop. */
  ghost predicate Committed(s: State) {
    && s.ring.Valid() && 0 < s.cfg.maxChunkSize && s.cfg.initialFillSize <= s.ring.Size()
    && s.past.passed + s.ring.Contents() == s.past.delivered && Behind(s.ring, s.past.passed)
    && !s.ring.empty && !s.flags.eof && !s.flags.readError && s.producer.Filling?
    && ReaderOk(s)
  }

  lemma CommitBytesAlmost(s: State, n: nat, s': State)
    requires RingInv(s) && s.producer.Filling? && 1 <= n <= s.producer.chunk && s' == CommitBytes(s, n)
    ensures Committed(s')
  {
    assert ChunkClear(s.ring, n);
    AppendContents(s.ring, n);
    AppendBehind(s.ring, s.past.passed, n);
    var r, more := s.ring.Append(n), s.ring.buffer[s.ring.b..s.ring.b + n];
    AppendedKeeps(s, r, more, s');
  }

  /** Any ring r that holds the old bytes and then the new ones will do. */
  lemma AppendedKeeps(s: State, r: Ring, more: seq<Byte>, s': State)
    requires RingInv(s) && s.producer.Filling? && r.Valid() && !r.empty && r.Size() == s.ring.Size()
    requires r.Contents() == s.ring.Contents() + more && Behind(r, s.past.passed)
    requires var s1 := s.(ring := r, past := s.past.(delivered := s.past.delivered + more));
             s' == if s.ring.empty then Signal(s1) else s1
    ensures Committed(s')
  {
    hide Behind, Ring.Contents;
    assert s.past.passed + (s.ring.Contents() + more) == s.past.delivered + more;
  }

  lemma CheckFillKeeps(s: State)
    requires Committed(s)
    ensures RingInv(Loop(CheckFill(s)))
  {
  }

  lemma CommitKeeps(s: State, result: ReadResult)
    requires RingInv(s) && s.producer.Filling? && (result.Bytes? ==> 1 <= result.n <= s.producer.chunk)
    ensures RingInv(CommitStep(s, result))
  {
    hide Behind;
    if result.Bytes? {
      var s' := CommitBytes(s, result.n);
      CommitBytesAlmost(s, result.n, s');
      hide CommitBytes, CheckFill, Committed;
      CheckFillKeeps(s');
    }
  }

  lemma FillingKeeps(s: State, s': State)
    requires RingInv(s) && s.producer.Filling? && ProducerMoves(s, s')
    ensures RingInv(s')
  {
    var chunk := s.producer.chunk;
    if offset: nat, x :| offset < chunk && s.ring.b + offset < s.ring.Size() && s' == StoreStep(s, offset, x) {
      StoreKeeps(s, offset, x);
    } else {
      var result: ReadResult :| (result.Bytes? ==> 1 <= result.n <= chunk) && s' == CommitStep(s, result);
      CommitKeeps(s, result);
    }
  }

  lemma ProducerKeeps(s: State, s': State)
    requires RingInv(s) && ProducerMoves(s, s')
    ensures RingInv(s')
  {
    hide Behind, Ring.Contents, TopStep, CommitStep, StoreStep;
    if s.producer.Top? {
      var throws :| s' == TopStep(s, throws);
      TopKeeps(s, throws);
    } else if s.producer.Filling? {
      FillingKeeps(s, s');
    }
  }

  // ----- steps of the reading thread -----

  /** The two copies together take as much as is wanted and there; the second starts at the buffer's start. */
  lemma ReadTakes(r: Ring, length: nat)
    requires r.Valid() && !r.empty && 0 < length
    ensures var (read1, read2) := r.ReadSizes(length);
            && read1 + read2 == (if length < r.Fill() then length else r.Fill()) && 1 <= read1 && 0 <= read2
            && r.a + read1 <= r.Size() && (read2 > 0 ==> r.a + read1 == r.Size() && read2 <= r.b)
  {
  }

  /** A step that changes only the reader and the socket flag. */
  lemma ReaderOnly(s: State, s': State)
    requires RingInv(s) && s' == s.(reader := s'.reader, flags := s.flags.(checkSocket := s'.flags.checkSocket))
    requires ReaderOk(s')
    ensures RingInv(s')
  {
  }

  lemma ReadKeeps(s: State, length: nat)
    requires RingInv(s) && LockFree(s) && (s.reader.Idle? || s.reader.ReadWoken?) && 0 < length
    ensures RingInv(ReadStep(s, length))
  {
    if !s.ring.empty { ReadTakes(s.ring, length); }
    hide QueueOk, Behind, Ring.ReadSizes, Ring.Contents;
    assert s.ring.Valid() by { RingIsValid(s); }
    ReaderOnly(s, ReadStep(s, length));
  }

  lemma CopyKeeps(s: State)
    requires RingInv(s) && s.reader.Copying? && |s.reader.out| < s.reader.count && |s.reader.out| < s.ring.Size()
    ensures RingInv(CopyStep(s))
  {
    var out, c := s.reader.out, s.ring.Contents();
    assert c[..|out| + 1] == out + [c[|out|]];
  }

  lemma EndReadKeeps(s: State)
    requires RingInv(s) && LockFree(s) && s.reader.Copying? && |s.reader.out| >= s.reader.count
    ensures RingInv(EndReadStep(s))
  {
    var n, c := s.reader.count, s.ring.Contents();
    AdvanceContents(s.ring, n);
    AdvanceBehind(s.ring, s.past.passed, n);
    if s.producer.Filling? { AdvanceKeepsChunk(s.ring, n, s.producer.chunk); }
    assert s.reader.out == c[..n];
    MovePassed(s.past.passed, c, n);
  }

  lemma SeekKeeps(s: State, offset: int, whence: Whence)
    requires RingInv(s) && LockFree(s) && s.reader.Idle?
    ensures RingInv(SeekStep(s, offset, whence))
  {
  }

  lemma SeekWaitKeeps(s: State)
    requires RingInv(s) && LockFree(s) && s.reader.SeekWoken?
    ensures RingInv(SeekWait(s))
  {
  }

  lemma ShutdownKeeps(s: State)
    requires RingInv(s) && LockFree(s) && s.reader.Idle?
    ensures RingInv(ShutdownStep(s))
  {
  }

  lemma ReaderKeeps(s: State, s': State)
    requires RingInv(s) && ReaderMoves(s, s')
    ensures RingInv(s')
  {
    match s.reader
    case Idle =>
      if length: nat :| 0 < length && s' == ReadStep(s, length) {
        ReadKeeps(s, length);
      } else if offset, whence :| SeekAsserts(offset, whence) && s' == SeekStep(s, offset, whence) {
        SeekKeeps(s, offset, whence);
      } else {
        ShutdownKeeps(s);
      }
    case ReadWoken(length) => ReadKeeps(s, length);
    case SeekWoken => SeekWaitKeeps(s);
    case Copying(count, out) =>
      if |out| < count { CopyKeeps(s); } else { EndReadKeeps(s); }
    case _ =>
  }

  // ----- runs -----

  lemma {:induction false} RunsKeepRing(run: seq<State>, n: nat)
    requires RingBehaviour(run) && n < |run|
    ensures RingInv(run[n])
  {
    if n > 0 {
      RunsKeepRing(run, n - 1);
      assert RingStep(run[n - 1], run[n - 1 + 1]);
      if ProducerMoves(run[n - 1], run[n]) {
        ProducerKeeps(run[n - 1], run[n]);
      } else {
        ReaderKeeps(run[n - 1], run[n]);
      }
    }
  }

  /** The ring refines a FIFO: in every state of every run, what has left the ring followed by what
      is in it is what the underlying handler has delivered, in order. A read in progress holds the
      front of the ring. */
  lemma RingIsFifo(run: seq<State>, n: nat)
    requires RingBehaviour(run) && n < |run|
    ensures run[n].ring.Valid()
    ensures run[n].past.passed + run[n].ring.Contents() == run[n].past.delivered
    ensures run[n].reader.Copying? ==> run[n].reader.out <= run[n].ring.Contents()
  {
    RunsKeepRing(run, n);
  }
}
