/**
 The indices alone, over every run whose in-buffer seeks do not go back past the start of the
 buffer: also those that empty a full ring, pass b or find bytes overwritten.
 */
module RingIndices {
  import opened RingProtocol
  import opened RingSafety

  /** Where the reader may be, as far as the indices go. */
  ghost predicate ReaderPlaced(s: State) {
    && (s.reader.ReadAsleep? || s.reader.ReadWoken? ==> 0 < s.reader.length)
    && (s.seek.Seek? ==> s.reader.SeekAsleep? || s.reader.SeekWoken? || s.flags.Over())
    && (s.reader.Copying? ==>
          && 1 <= s.reader.count <= s.ring.Fill() && !s.flags.threadShutdown
          && (s.seek.Seek? ==> s.producer.Finished?))
  }

  ghost predicate ProducerPlaced(s: State) {
    && (s.producer.Start? ==> s.ring.empty)
    && (s.producer.Top? && s.flags.threadShutdown ==> s.ring.empty)
    && (s.producer.Filling? ==> ChunkClear(s.ring, s.producer.chunk))
    && (s.producer.Asleep? ==> s.ring.Full() && s.seek.NoSeek? && !s.flags.threadShutdown)
    && (s.producer.Finished? ==> s.flags.Over())
    && (s.flags.eof || s.flags.readError ==> s.producer.Finished?)
  }

  ghost predicate IndexInv(s: State) {
    s.ring.Valid() && 0 < s.cfg.maxChunkSize && ProducerPlaced(s) && ReaderPlaced(s)
  }

  /** A distance that stays inside the buffer leaves valid indices, whatever becomes of the bytes. */
  lemma SkipStaysValid(r: Ring, rel: int)
    requires r.Valid() && !r.empty && rel <= r.Fill() && 0 <= r.a + rel
    ensures r.Skip(rel).Valid() && r.Skip(rel).Size() == r.Size()
    ensures r.Skip(rel).empty ==> r.Skip(rel).b == 0
  {
    SkipIndex(r, rel);
    hide Ring.Skip;
  }

  lemma SeekKeepsIndices(s: State, throws: bool, s': State)
    requires IndexInv(s) && s.producer.Top? && InsideSeek(s) && (s.ring.empty ==> s.ring.b == 0)
    requires s' == ProcessSeek(s, throws)
    ensures IndexInv(s') && s'.seek.NoSeek? && s'.producer.Top? && (s'.ring.empty ==> s'.ring.b == 0)
  {
    if InBuffer(s) { SkipStaysValid(s.ring, RelSeek(s.seek, s.posRead)); }
    hide Ring.Skip, RelSeek;
  }

  lemma DecideKeepsIndices(s: State)
    requires IndexInv(s) && s.producer.Top? && s.seek.NoSeek? && (s.ring.empty ==> s.ring.b == 0)
    ensures IndexInv(Decide(s))
  {
    WaitsExactlyWhenFull(s.ring);
  }

  lemma TopKeepsIndices(s: State, throws: bool)
    requires IndexInv(s) && s.producer.Top? && InsideSeek(s)
    ensures IndexInv(TopStep(s, throws))
  {
    var s0 := s.(ring := s.ring.ResetIfEmpty());
    assert InsideSeek(s0);
    hide ProcessSeek, Decide;
    var s1 := ProcessSeek(s0, throws);
    SeekKeepsIndices(s0, throws, s1);
    DecideKeepsIndices(s1);
  }

  lemma CommitKeepsIndices(s: State, result: ReadResult)
    requires IndexInv(s) && s.producer.Filling? && (result.Bytes? ==> 1 <= result.n <= s.producer.chunk)
    ensures IndexInv(CommitStep(s, result))
  {
    if result.Bytes? {
      assert ChunkClear(s.ring, result.n);
      AppendContents(s.ring, result.n);
      AppendFills(s.ring, result.n);
    }
    hide Ring.Contents;
  }

  lemma AppendFills(r: Ring, n: nat)
    requires r.Valid() && ChunkClear(r, n)
    ensures r.Append(n).Fill() == r.Fill() + n
  {
  }

  lemma FillingKeepsIndices(s: State, s': State)
    requires IndexInv(s) && s.producer.Filling? && ProducerSteps(s, s')
    ensures IndexInv(s')
  {
    hide CommitStep;
    var chunk := s.producer.chunk;
    if offset: nat, x :| offset < chunk && s.ring.b + offset < s.ring.Size() && s' == StoreStep(s, offset, x) {
      assert s'.ring.Fill() == s.ring.Fill() && s'.ring.Valid();
    } else {
      var result: ReadResult :| (result.Bytes? ==> 1 <= result.n <= chunk) && s' == CommitStep(s, result);
      CommitKeepsIndices(s, result);
    }
  }

  lemma ProducerKeepsIndices(s: State, s': State)
    requires IndexInv(s) && ProducerSteps(s, s') && (s.producer.Top? ==> InsideSeek(s))
    ensures IndexInv(s')
  {
    hide TopStep, CommitStep, StoreStep;
    if s.producer.Top? {
      var throws :| s' == TopStep(s, throws);
      TopKeepsIndices(s, throws);
    } else if s.producer.Filling? {
      FillingKeepsIndices(s, s');
    }
  }

  lemma ReadKeepsIndices(s: State, length: nat)
    requires IndexInv(s) && LockFree(s) && (s.reader.Idle? || s.reader.ReadWoken?) && 0 < length
    ensures IndexInv(ReadStep(s, length))
  {
    if !s.ring.empty { ReadTakes(s.ring, length); }
    hide Ring.ReadSizes;
  }

  lemma EndReadKeepsIndices(s: State)
    requires IndexInv(s) && LockFree(s) && s.reader.Copying?
    ensures IndexInv(EndReadStep(s))
  {
    AdvanceContents(s.ring, s.reader.count);
    if s.producer.Filling? { AdvanceKeepsChunk(s.ring, s.reader.count, s.producer.chunk); }
    hide Ring.Contents;
  }

  lemma ReaderKeepsIndices(s: State, s': State)
    requires IndexInv(s) && ReaderMoves(s, s')
    ensures IndexInv(s')
  {
    hide ReadStep, EndReadStep;
    match s.reader
    case Idle =>
      if length: nat :| 0 < length && s' == ReadStep(s, length) {
        ReadKeepsIndices(s, length);
      }
    case ReadWoken(length) => ReadKeepsIndices(s, length);
    case Copying(count, out) =>
      if |out| >= count { EndReadKeepsIndices(s); }
    case _ =>
  }

  lemma TopLeavesTop(s: State, throws: bool)
    ensures !TopStep(s, throws).producer.Top?
  {
  }

  lemma StepKeepsIndices(s: State, s': State)
    requires IndexInv(s) && (s.producer.Top? && !s'.producer.Top? ==> InsideSeek(s))
    requires ProducerSteps(s, s') || ReaderMoves(s, s')
    ensures IndexInv(s')
  {
    hide IndexInv, InsideSeek, ReaderMoves, TopStep;
    if ProducerSteps(s, s') {
      if s.producer.Top? {
        var throws :| s' == TopStep(s, throws);
        TopLeavesTop(s, throws);
      }
      ProducerKeepsIndices(s, s');
    } else {
      ReaderKeepsIndices(s, s');
    }
  }

  lemma {:induction false} RunsKeepIndices(run: seq<State>, n: nat)
    requires AnyBehaviour(run) && SeeksInside(run) && n < |run|
    ensures IndexInv(run[n])
  {
    if n > 0 {
      RunsKeepIndices(run, n - 1);
      var s, s' := run[n - 1], run[n - 1 + 1];
      assert ProducerSteps(s, s') || ReaderMoves(s, s');
      hide IndexInv, ProducerSteps, ReaderMoves;
      StepKeepsIndices(s, s');
    }
  }

  /** The region filled without the lock stays inside the buffer and off every unread byte, whatever is read
      meanwhile and whatever was sought, as long as no in-buffer seek underruns the buffer. */
  lemma FillAvoidsUnread(run: seq<State>, n: nat, i: nat)
    requires AnyBehaviour(run) && SeeksInside(run) && n < |run| && run[n].producer.Filling?
    ensures var r, chunk := run[n].ring, run[n].producer.chunk;
            && r.Valid() && 1 <= chunk && r.b + chunk <= r.Size()
            && (i < r.Fill() ==> !(r.b <= Wrap(r.a + i, r.Size()) < r.b + chunk))
  {
    RunsKeepIndices(run, n);
    if i < run[n].ring.Fill() { ChunkAvoidsUnread(run[n].ring, run[n].producer.chunk, i); }
  }

  /** The runs whose seeks are handled are among these. */
  lemma HandledStaysInside(run: seq<State>)
    requires RingBehaviour(run)
    ensures AnyBehaviour(run) && SeeksInside(run)
  {
    hide TopStep, ReaderMoves;
    forall i | 0 <= i < |run| - 1
      ensures ProducerSteps(run[i], run[i + 1]) || ReaderMoves(run[i], run[i + 1])
      ensures run[i].producer.Top? && !run[i + 1].producer.Top? ==> InsideSeek(run[i])
    {
      assert RingStep(run[i], run[i + 1]);
      if !ProducerMoves(run[i], run[i + 1]) && run[i].producer.Top? { ReaderLeavesProducer(run[i], run[i + 1]); }
    }
  }

  /** A reader that moves while the buffer thread is at the top of its loop leaves it there. */
  lemma ReaderLeavesProducer(s: State, s': State)
    requires ReaderMoves(s, s') && s.producer.Top?
    ensures s'.producer.Top?
  {
  }
}
